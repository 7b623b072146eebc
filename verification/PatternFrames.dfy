/** Universe buffers, the value a unit has in them, and writing many units' values at once. */
module PatternFrames {
  import opened Prelude
  import opened PatternSlots

  type Frames = map<uint16, seq<byte>>

  /** Every universe buffer is a whole one. */
  ghost predicate FramesOk(frames: Frames)
  {
    forall u :: u in frames ==> |frames[u]| == UNIVERSE_SIZE
  }

  /** A universe without a buffer reads as 0. */
  function UnitValue(frames: Frames, k: UnitKey): (v: nat)
    requires KeyOk(k)
    ensures v < 0x1_0000 && (k.fine == 0 ==> v < 0x100)
  {
    var f := if k.universe in frames then frames[k.universe] else [];
    if |f| < k.coarse || |f| < k.fine then 0
    else
      var high: nat, low: nat := f[k.coarse - 1], if k.fine != 0 then f[k.fine - 1] else 0;
      if k.fine != 0 then high * 0x100 + low else high
  }

  function SetUnitValue(frames: Frames, k: UnitKey, v: nat): Frames
    requires KeyOk(k) && k.universe in frames && |frames[k.universe]| == UNIVERSE_SIZE
  {
    var f := frames[k.universe];
    if k.fine != 0 then frames[k.universe := f[k.coarse - 1 := v / 0x100 % 0x100][k.fine - 1 := v % 0x100]]
    else frames[k.universe := f[k.coarse - 1 := v % 0x100]]
  }

  /** The value at a unit's slots of a universe buffer, coarse byte first. */
  function BytesAt(f: seq<byte>, k: UnitKey): int
    requires KeyOk(k) && |f| == UNIVERSE_SIZE
  {
    var high: nat, low: nat := f[k.coarse - 1], if k.fine == 0 then 0 else f[k.fine - 1];
    if k.fine == 0 then high else high * 0x100 + low
  }

  lemma BytesAre(frames: Frames, k: UnitKey)
    requires FramesOk(frames) && KeyOk(k)
    ensures UnitValue(frames, k) == if k.universe in frames then BytesAt(frames[k.universe], k) else 0
  {}

  predicate InFrames(frames: Frames, s: Slot)
  {
    s.universe in frames && 1 <= s.channel <= |frames[s.universe]|
  }

  function SlotValue(frames: Frames, s: Slot): byte
    requires InFrames(frames, s)
  {
    frames[s.universe][s.channel - 1]
  }

  /** What a unit's value puts into one of its slots. */
  function ByteOf(k: UnitKey, v: nat, s: Slot): byte
  {
    if k.fine != 0 && s.channel == k.coarse then v / 0x100 % 0x100 else v % 0x100
  }

  /** frames is base with the values of the units in values written over it, and nothing else. */
  ghost predicate Overlaid(frames: Frames, base: Frames, values: map<UnitKey, nat>)
  {
    frames.Keys == base.Keys && FramesOk(frames) && FramesOk(base) &&
    forall s :: InFrames(base, s) ==>
      (forall k :: k in values && Covers(k, s) ==> SlotValue(frames, s) == ByteOf(k, values[k], s)) &&
      ((forall k :: k in values ==> !Covers(k, s)) ==> SlotValue(frames, s) == SlotValue(base, s))
  }

  /** The keys of values are well placed and share no slot. */
  ghost predicate KeysApart(values: map<UnitKey, nat>)
  {
    (forall k :: k in values ==> KeyOk(k)) &&
    forall k, l, s :: k in values && l in values && Covers(k, s) && Covers(l, s) ==> k == l
  }

  lemma OverlayOneMore(frames: Frames, base: Frames, values: map<UnitKey, nat>, k: UnitKey, v: nat)
    requires Overlaid(frames, base, values) && KeysApart(values[k := v]) && k !in values && k.universe in base
    ensures Overlaid(SetUnitValue(frames, k, v), base, values[k := v])
  {
    var now, all := SetUnitValue(frames, k, v), values[k := v];
    hide SetUnitValue, Covers, ByteOf, SlotValue;
    forall s | InFrames(base, s)
      ensures forall l :: l in all && Covers(l, s) ==> SlotValue(now, s) == ByteOf(l, all[l], s)
      ensures (forall l :: l in all ==> !Covers(l, s)) ==> SlotValue(now, s) == SlotValue(base, s)
    {
      assert InFrames(frames, s) by { assert |frames[s.universe]| == |base[s.universe]|; }
      if Covers(k, s) {
        forall l | l in all && Covers(l, s) ensures SlotValue(now, s) == ByteOf(l, all[l], s) {
          assert l == k;
        }
        assert k in all;
      } else {
        assert SlotValue(now, s) == SlotValue(frames, s);
        if forall l :: l in all ==> !Covers(l, s) {
          assert forall l :: l in values ==> l in all;
        }
      }
    }
  }

  /** The overlay determines the frames: in whatever order the values were written. */
  lemma OverlayUnique(frames: Frames, frames': Frames, base: Frames, values: map<UnitKey, nat>)
    requires Overlaid(frames, base, values) && Overlaid(frames', base, values)
    ensures frames == frames'
  {
    hide Covers, ByteOf;
    forall u | u in base ensures frames[u] == frames'[u] {
      forall i | 0 <= i < UNIVERSE_SIZE ensures frames[u][i] == frames'[u][i] {
        var s := Slot(u, i + 1);
        assert InFrames(base, s);
        if k :| k in values && Covers(k, s) {
          assert SlotValue(frames, s) == ByteOf(k, values[k], s) == SlotValue(frames', s);
        }
        assert SlotValue(frames, s) == frames[u][i] && SlotValue(frames', s) == frames'[u][i];
      }
    }
  }

  /** Every unit written shows its own value, every unit beside them what it had. */
  lemma OverlayShows(frames: Frames, base: Frames, values: map<UnitKey, nat>, k: UnitKey)
    requires Overlaid(frames, base, values) && KeyOk(k) && k.universe in base
    ensures k in values && values[k] < (if k.fine == 0 then 0x100 else 0x1_0000) ==> UnitValue(frames, k) == values[k]
    ensures (forall l, s :: l in values && Covers(l, s) ==> !Covers(k, s)) ==> UnitValue(frames, k) == UnitValue(base, k)
  {
    var c := CoarseSlot(k);
    assert InFrames(base, c) && Covers(k, c);
    assert SlotValue(frames, c) == frames[k.universe][k.coarse - 1] && SlotValue(base, c) == base[k.universe][k.coarse - 1];
    if k.fine != 0 {
      var f := FineSlot(k);
      assert InFrames(base, f) && Covers(k, f);
      assert SlotValue(frames, f) == frames[k.universe][k.fine - 1] && SlotValue(base, f) == base[k.universe][k.fine - 1];
      if forall l, s :: l in values && Covers(l, s) ==> !Covers(k, s) {
        forall l | l in values ensures !Covers(l, c) && !Covers(l, f) {}
      }
    } else {
      if forall l, s :: l in values && Covers(l, s) ==> !Covers(k, s) {
        forall l | l in values ensures !Covers(l, c) {}
      }
    }
  }

  function Blank(): (f: seq<byte>)
    ensures |f| == UNIVERSE_SIZE && forall i :: 0 <= i < |f| ==> f[i] == 0
  {
    seq(UNIVERSE_SIZE, i => 0)
  }

  /** Every universe ever started gets a buffer. */
  function WithStarted(frames: Frames, started: set<uint16>): Frames
  {
    map u | u in frames.Keys + started :: if u in frames then frames[u] else Blank()
  }
}
