/** Which pattern function drives which DMX slots. A unit is one function's coarse slot, with its fine
    slot when it is 16 bits wide; a unit counts only while it is the last writer of all its slots. */
module PatternSlots {
  import opened Prelude

  const UNIVERSE_SIZE := 512

  datatype Slot = Slot(universe: uint16, channel: int)

  /** Slots counted from 1; fine 0 is an 8-bit unit. */
  datatype UnitKey = UnitKey(universe: uint16, coarse: int, fine: int)

  /** What drives a unit: a test function or a base-state value. removed: nothing any more. */
  datatype Source = Source(entry: string, spec: string, phase: real, baseValue: nat, removed: bool)

  datatype Unit = Unit(key: UnitKey, source: Source, fade: bool)

  type Writers = map<Slot, Unit>
  type Units = map<UnitKey, Unit>

  /** The 32-bit key the original files a slot under. */
  function SlotKey(s: Slot): int
  {
    s.universe * 0x1_0000 + s.channel % 0x1_0000
  }

  /** Slots of a universe have keys of their own. */
  lemma SlotKeysDiffer(s: Slot, t: Slot)
    requires 0 <= s.channel <= UNIVERSE_SIZE && 0 <= t.channel <= UNIVERSE_SIZE
    ensures SlotKey(s) == SlotKey(t) <==> s == t
  {
    assert s.channel % 0x1_0000 == s.channel && t.channel % 0x1_0000 == t.channel;
  }

  predicate KeyOk(k: UnitKey)
  {
    1 <= k.coarse <= UNIVERSE_SIZE && 0 <= k.fine <= UNIVERSE_SIZE && k.fine != k.coarse
  }

  function CoarseSlot(k: UnitKey): Slot { Slot(k.universe, k.coarse) }

  function FineSlot(k: UnitKey): Slot { Slot(k.universe, k.fine) }

  predicate Covers(k: UnitKey, s: Slot)
  {
    s == CoarseSlot(k) || (k.fine != 0 && s == FineSlot(k))
  }

  /** Every writer covers the slot it is filed under. */
  ghost predicate WritersOk(writers: Writers)
  {
    forall s :: s in writers ==> KeyOk(writers[s].key) && Covers(writers[s].key, s)
  }

  /** u wrote the slots of k. */
  function Write(writers: Writers, u: Unit): Writers
  {
    var w := writers[CoarseSlot(u.key) := u];
    if u.key.fine != 0 then w[FineSlot(u.key) := u] else w
  }

  /** The units of one function write: a pair when it is 16 bits wide, else one for each offset. */
  function KeysOf(universe: uint16, start: uint16, offsets: seq<uint16>, nbytes: int): seq<UnitKey>
  {
    if nbytes >= 2 && |offsets| >= 2
    then [UnitKey(universe, start + offsets[0] - 1, start + offsets[1] - 1)]
    else seq(|offsets|, i requires 0 <= i < |offsets| => UnitKey(universe, start + offsets[i] - 1, 0))
  }

  /** A function write of a fixture at start, whose channels count from 1, is filed under the DMX slots
      start + channel - 1: one unit of two slots when it is 16 bits wide, else a unit each. A unit is well
      placed whose slots are among the 512, and not the same one twice. */
  lemma KeysPlaced(universe: uint16, start: uint16, offsets: seq<uint16>, nbytes: int)
    ensures var keys := KeysOf(universe, start, offsets, nbytes);
            (nbytes >= 2 && |offsets| >= 2 ==>
               |keys| == 1 && CoarseSlot(keys[0]) == Slot(universe, start + offsets[0] - 1) && FineSlot(keys[0]) == Slot(universe, start + offsets[1] - 1)) &&
            (nbytes < 2 || |offsets| < 2 ==>
               |keys| == |offsets| && forall i :: 0 <= i < |offsets| ==> CoarseSlot(keys[i]) == Slot(universe, start + offsets[i] - 1) && keys[i].fine == 0) &&
            forall i :: 0 <= i < |keys| ==> (KeyOk(keys[i]) <==> 1 <= keys[i].coarse <= 512 && 0 <= keys[i].fine <= 512 && keys[i].fine != keys[i].coarse)
  {}

  function Noted(writers: Writers, keys: seq<UnitKey>, source: Source, fade: bool): Writers
  {
    if keys == [] then writers
    else
      var w := Noted(writers, keys[..|keys| - 1], source, fade);
      var k := keys[|keys| - 1];
      if KeyOk(k) then Write(w, Unit(k, source, fade)) else w
  }

  /** A write takes exactly the slots of its well-placed keys, and each from whoever had it. */
  lemma {:induction false} NotedTakes(writers: Writers, keys: seq<UnitKey>, source: Source, fade: bool, s: Slot)
    ensures WritersOk(writers) ==> WritersOk(Noted(writers, keys, source, fade))
    ensures var now := Noted(writers, keys, source, fade);
            if exists i :: 0 <= i < |keys| && KeyOk(keys[i]) && Covers(keys[i], s)
            then s in now && now[s].source == source && now[s].fade == fade && now[s].key in keys
            else (s in now <==> s in writers) && (s in now ==> now[s] == writers[s])
  {
    if keys != [] {
      var init := keys[..|keys| - 1];
      NotedTakes(writers, init, source, fade, s);
      assert forall i :: 0 <= i < |init| ==> init[i] == keys[i];
    }
  }

  /** k is the last writer of all its slots. */
  predicate Whole(writers: Writers, k: UnitKey)
  {
    CoarseSlot(k) in writers && writers[CoarseSlot(k)].key == k &&
    (k.fine != 0 ==> FineSlot(k) in writers && writers[FineSlot(k)] == writers[CoarseSlot(k)])
  }

  function WholeUnits(writers: Writers): Units
  {
    map s | s in writers && CoarseSlot(writers[s].key) == s && Whole(writers, writers[s].key) :: writers[s].key := writers[s]
  }

  lemma WholeUnitsAre(writers: Writers)
    requires WritersOk(writers)
    ensures forall k :: k in WholeUnits(writers) <==> Whole(writers, k)
    ensures forall k :: k in WholeUnits(writers) ==> WholeUnits(writers)[k] == writers[CoarseSlot(k)] && WholeUnits(writers)[k].key == k
  {
    forall k | Whole(writers, k) ensures k in WholeUnits(writers) {
      assert writers[CoarseSlot(k)].key == k;
    }
  }

  /** No two units share a slot, and every one is within its universe. */
  ghost predicate Disjoint(units: Units)
  {
    (forall k :: k in units ==> KeyOk(k) && units[k].key == k) &&
    forall k, l, s :: k in units && l in units && Covers(k, s) && Covers(l, s) ==> k == l
  }

  lemma WholeDisjoint(writers: Writers)
    requires WritersOk(writers)
    ensures Disjoint(WholeUnits(writers))
  {
    WholeUnitsAre(writers);
    hide WholeUnits;
  }

  /** The functions a composition was written by. */
  class Composition {
    var writers: Writers

    constructor ()
      ensures writers == map[]
    {
      writers := map[];
    }

    method NoteUnit(universe: uint16, start: uint16, offsets: seq<uint16>, nbytes: int, source: Source, fade: bool)
      modifies this
      ensures writers == Noted(old(writers), KeysOf(universe, start, offsets, nbytes), source, fade)
    {
      var keys: seq<UnitKey> := [];
      if nbytes >= 2 && |offsets| >= 2 {
        keys := keys + [UnitKey(universe, start + offsets[0] - 1, start + offsets[1] - 1)];
      } else {
        for i := 0 to |offsets|
          invariant keys == seq(i, j requires 0 <= j < i => UnitKey(universe, start + offsets[j] - 1, 0))
        {
          keys := keys + [UnitKey(universe, start + offsets[i] - 1, 0)];
        }
      }
      for i := 0 to |keys|
        invariant writers == Noted(old(writers), keys[..i], source, fade)
      {
        var k := keys[i];
        assert keys[..i + 1][..i] == keys[..i];
        if k.coarse < 1 || k.coarse > UNIVERSE_SIZE || k.fine < 0 || k.fine > UNIVERSE_SIZE || k.fine == k.coarse {
          continue;
        }
        var u := Unit(k, source, fade);
        writers := writers[CoarseSlot(k) := u];
        if k.fine != 0 {
          writers := writers[FineSlot(k) := u];
        }
      }
      assert keys[..|keys|] == keys;
    }

    /** The writers are looked at in any order. */
    method CollectUnits() returns (units: Units)
      requires WritersOk(writers)
      ensures units == WholeUnits(writers)
    {
      units := map[];
      var rest := writers.Keys;
      while rest != {}
        invariant rest <= writers.Keys
        invariant forall k :: k in units ==> Whole(writers, k) && units[k] == writers[CoarseSlot(k)]
        invariant forall s :: s in writers && s !in rest && Whole(writers, writers[s].key) ==> writers[s].key in units
      {
        var s :| s in rest;
        rest := rest - {s};
        var u := writers[s];
        var k := u.key;
        if CoarseSlot(k) !in writers || writers[CoarseSlot(k)] != u {
          continue;
        }
        if k.fine != 0 && (FineSlot(k) !in writers || writers[FineSlot(k)] != u) {
          continue;
        }
        units := units[k := u];
      }
      WholeUnitsAre(writers);
      hide WholeUnits;
      assert forall k :: k in units <==> k in WholeUnits(writers);
    }
  }
}
