/** Small fixtures for the cases in which the model fails: channels of one byte each, one after the other
    from the first offset. */
module OneByteFixtures {
  import opened Prelude
  import opened GeometryTree
  import opened ChannelMap
  import opened ParameterModel

  datatype Slot = Slot(instance: string, attribute: string)

  /** The channel map of the fixture, and the channels that it is shared out into. */
  function MapOf(l: seq<Slot>): ChannelMap
    requires |l| <= 512
  {
    map o: uint16 | 1 <= o <= |l| :: OneByte(l, o)
  }

  function OneByte(l: seq<Slot>, o: nat): ChannelFunction
    requires 1 <= o <= |l|
  {
    ChannelFunction(l[o - 1].instance, GDTF, l[o - 1].attribute, false, 0, true, 1, 0)
  }

  function ChannelsOf(l: seq<Slot>): seq<Parameter>
    requires |l| <= 512
  {
    seq(|l|, i requires 0 <= i < |l| => NewParameter([i + 1], OneByte(l, i + 1), Full))
  }

  predicate IsSlot(p: Parameter, i: nat, s: Slot)
  {
    p.offset == i + 1 && p.offsets == [p.offset] && p.instance == s.instance && p.attribute == s.attribute && p.cell == "" &&
    !p.virtual && !p.master && !p.inner
  }

  lemma ChannelsAt(l: seq<Slot>)
    requires |l| <= 512
    ensures |ChannelsOf(l)| == |l| && forall i :: 0 <= i < |l| ==> IsSlot(ChannelsOf(l)[i], i, l[i])
  {}

  lemma LayoutShared(l: seq<Slot>)
    requires |l| <= 512
    ensures SharedOut(MapOf(l), |l|, ChannelsOf(l), [])
  {
    hide MapOf, ChannelsOf;
    ChannelsAt(l);
    forall i | 0 <= i < |l| ensures IsFullParameter(MapOf(l), ChannelsOf(l)[i]) {
      LayoutFull(l, i);
    }
    forall o | o in MapOf(l) ensures 1 <= o <= |l| {
      MapDomain(l, o);
    }
    EachItsOwn(MapOf(l), ChannelsOf(l));
  }

  lemma EachItsOwn(cfs: ChannelMap, ps: seq<Parameter>)
    requires |ps| <= 512 && forall i :: 0 <= i < |ps| ==> IsFullParameter(cfs, ps[i]) && ps[i].offset == i + 1 && ps[i].offsets == [ps[i].offset]
    requires forall o :: o in cfs ==> 1 <= o <= |ps|
    ensures SharedOut(cfs, |ps|, ps, [])
  {
    forall o | 1 <= o <= |ps| ensures IsByteOf(ps, o) {
      assert o in ps[o - 1].offsets;
    }
    BytesOwned(ps);
  }

  lemma BytesOwned(ps: seq<Parameter>)
    requires forall i :: 0 <= i < |ps| ==> ps[i].offset == i + 1 && ps[i].offsets == [ps[i].offset]
    ensures BytesDisjoint(ps)
  {}

  lemma MapDomain(l: seq<Slot>, o: uint16)
    requires |l| <= 512
    ensures o in MapOf(l) <==> 1 <= o <= |l|
  {}

  lemma LayoutFull(l: seq<Slot>, i: nat)
    requires i < |l| <= 512
    ensures IsFullParameter(MapOf(l), ChannelsOf(l)[i])
  {}

  // ---------------------------------------------------------------- cells and scopes

  /** The channels of inst are those of attributes as, from n on. */
  predicate RunAt(ps: seq<Parameter>, inst: string, n: nat, attributes: seq<string>)
  {
    inst != "" && attributes != [] && n + |attributes| <= |ps| &&
    (forall i :: 0 <= i < |ps| ==> (ps[i].instance == inst <==> n <= i < n + |attributes|)) &&
    forall k :: n <= k < n + |attributes| ==> ps[k].attribute == attributes[k - n]
  }

  lemma RunAttributes(ps: seq<Parameter>, inst: string, n: nat, attributes: seq<string>)
    requires RunAt(ps, inst, n, attributes)
    ensures inst in Instances(ps) && AttributesOf(ps, inst) == set a | a in attributes
  {
    assert ps[n].instance == inst;
    forall a | a in attributes ensures a in AttributesOf(ps, inst) {
      var k :| 0 <= k < |attributes| && attributes[k] == a;
      assert ps[n + k].attribute == a && ps[n + k].instance == inst;
    }
  }

  /** Two instances with the same attributes are cells. */
  lemma PeersAreCells(ps: seq<Parameter>, a: string, n: nat, b: string, k: nat, attributes: seq<string>)
    requires RunAt(ps, a, n, attributes) && RunAt(ps, b, k, attributes) && a != b
    ensures IsCell(ps, a) && IsCell(ps, b)
  {
    RunAttributes(ps, a, n, attributes);
    RunAttributes(ps, b, k, attributes);
    hide Instances, AttributesOf;
  }

  /** A channel of the scope of cell with one of the attributes of names. */
  predicate ScopeHas(ps: seq<Parameter>, cell: string, names: set<string>)
  {
    exists i :: 0 <= i < |ps| && ps[i].cell == cell && ps[i].attribute in names
  }

  lemma ScopeHasStep(ps: seq<Parameter>, p: Parameter, cell: string, names: set<string>)
    ensures ScopeHas(ps + [p], cell, names) <==> ScopeHas(ps, cell, names) || (p.cell == cell && p.attribute in names)
  {
    var qs := ps + [p];
    assert qs[|ps|] == p;
    if i :| 0 <= i < |ps| && ps[i].cell == cell && ps[i].attribute in names {
      assert qs[i] == ps[i];
    }
  }

  /** What ScopeOf records of a scope. */
  lemma {:induction false} ScopeRecords(ps: seq<Parameter>, cell: string)
    ensures var sc := ScopeOf(ps, cell);
            (sc.dimmer <==> ScopeHas(ps, cell, {"Dimmer"})) &&
            (sc.r <==> ScopeHas(ps, cell, {"ColorAdd_R", "ColorRGB_Red"})) &&
            (sc.g <==> ScopeHas(ps, cell, {"ColorAdd_G", "ColorRGB_Green"})) &&
            (sc.b <==> ScopeHas(ps, cell, {"ColorAdd_B", "ColorRGB_Blue"}))
  {
    hide IsAdditive, ScopeHas;
    if ps != [] {
      var init, p := ps[..|ps| - 1], ps[|ps| - 1];
      assert ps == init + [p];
      ScopeRecords(init, cell);
      ScopeHasStep(init, p, cell, {"Dimmer"});
      ScopeHasStep(init, p, cell, {"ColorAdd_R", "ColorRGB_Red"});
      ScopeHasStep(init, p, cell, {"ColorAdd_G", "ColorRGB_Green"});
      ScopeHasStep(init, p, cell, {"ColorAdd_B", "ColorRGB_Blue"});
    } else {
      hide ScopeOf;
      NothingRecorded(cell);
    }
  }

  lemma NothingRecorded(cell: string)
    ensures ScopeOf([], cell) == EMPTY_SCOPE && forall names :: !ScopeHas([], cell, names)
  {}

  const RGB: seq<string> := ["ColorAdd_R", "ColorAdd_G", "ColorAdd_B"]

  /** No channel is a dimmer. */
  predicate NoDimmer(ps: seq<Parameter>)
  {
    forall i :: 0 <= i < |ps| ==> !IsDimmer(ps[i]) && !ps[i].virtual
  }

  /** Red, green and blue of a cell, in a fixture without dimmer channels, make it want a virtual one. */
  lemma RgbWantsVirtual(ps: seq<Parameter>, inst: string, n: nat)
    requires RunAt(ps, inst, n, RGB) && IsCell(ps, inst) && NoDimmer(ps)
    ensures WantsVirtual(WithCells(ps), inst)
  {
    var qs := WithCells(ps);
    assert |qs| == |ps| && forall i :: 0 <= i < |ps| ==> qs[i] == ps[i].(cell := qs[i].cell);
    assert qs[n].cell == qs[n + 1].cell == qs[n + 2].cell == inst;
    assert qs[n].attribute == RGB[0] && qs[n + 1].attribute == RGB[1] && qs[n + 2].attribute == RGB[2];
    hide IsCell, WithCells;
    RgbScope(qs, inst, n);
  }

  lemma RgbScope(qs: seq<Parameter>, inst: string, n: nat)
    requires n + 2 < |qs| && qs[n].cell == qs[n + 1].cell == qs[n + 2].cell == inst && NoDimmer(qs)
    requires qs[n].attribute == RGB[0] && qs[n + 1].attribute == RGB[1] && qs[n + 2].attribute == RGB[2]
    ensures WantsVirtual(qs, inst)
  {
    ScopeRecords(qs, inst);
    hide ScopeOf;
  }

  // ---------------------------------------------------------------- RGB cells

  /** An RGB triple for each name. */
  function RgbCells(names: seq<string>): seq<Slot>
  {
    seq(3 * |names|, i requires 0 <= i < 3 * |names| => Slot(names[i / 3], RGB[i % 3]))
  }

  ghost predicate Names(names: seq<string>)
  {
    |names| <= 100 && (forall k :: 0 <= k < |names| ==> names[k] != "") && forall i, k :: 0 <= i < k < |names| ==> names[i] != names[k]
  }

  /** Each is a cell of the fixture that wants a virtual dimmer. */
  lemma RgbRun(names: seq<string>, k: nat)
    requires Names(names) && k < |names|
    ensures NoDimmer(ChannelsOf(RgbCells(names))) && RunAt(ChannelsOf(RgbCells(names)), names[k], 3 * k, RGB)
  {
    var l := RgbCells(names);
    var ps := ChannelsOf(l);
    hide ChannelsOf, RgbCells, OfRgb;
    ChannelsAt(l);
    forall i | 0 <= i < |ps| ensures OfRgb(ps[i], names, i) && !IsDimmer(ps[i]) && !ps[i].virtual {
      RgbSlot(names, i, ps[i]);
    }
    RgbName(ps, names, k);
  }

  predicate OfRgb(p: Parameter, names: seq<string>, i: nat)
  {
    i < 3 * |names| && p.instance == names[i / 3] && p.attribute == RGB[i % 3]
  }

  lemma RgbSlot(names: seq<string>, i: nat, p: Parameter)
    requires Names(names) && i < |RgbCells(names)| && IsSlot(p, i, RgbCells(names)[i])
    ensures OfRgb(p, names, i) && !IsDimmer(p) && !p.virtual
  {
    assert RGB[i % 3] in RGB;
  }

  lemma RgbName(ps: seq<Parameter>, names: seq<string>, k: nat)
    requires Names(names) && k < |names| && |ps| == 3 * |names| && forall i :: 0 <= i < |ps| ==> OfRgb(ps[i], names, i)
    ensures RunAt(ps, names[k], 3 * k, RGB)
  {
    forall i | 0 <= i < |ps| ensures (ps[i].instance == names[k] <==> i / 3 == k) && ps[i].attribute == RGB[i % 3] {
      assert OfRgb(ps[i], names, i);
    }
    hide OfRgb, Names;
  }

  lemma RgbCellsWant(names: seq<string>, k: nat)
    requires Names(names) && k < |names| && |names| >= 2
    ensures var ps := ChannelsOf(RgbCells(names));
            IsCell(ps, names[k]) && WantsVirtual(WithCells(ps), names[k])
  {
    var other := if k == 0 then 1 else 0;
    RgbRun(names, k);
    RgbRun(names, other);
    var ps := ChannelsOf(RgbCells(names));
    hide ChannelsOf, RgbCells, RunAt, NoDimmer;
    PeersAreCells(ps, names[k], 3 * k, names[other], 3 * other, RGB);
    RgbWantsVirtual(ps, names[k], 3 * k);
  }

  // ---------------------------------------------------------------- names

  /** "P 1", "P 2" and so on are in part "p". */
  lemma NumberedPart(x: char, c: char)
    requires 'A' <= x <= 'Z' && '0' <= c <= '9'
    ensures PartKey([x, ' ', c]) == [x - 'A' + 'a']
  {
    var s := [x, ' ', c];
    assert s[..2] == [x, ' '] && s[..1] == [x] && s[1..] == [' ', c] && [' ', c][1..] == [c] && [c][1..] == "";
    assert LastIndexOf([x, ' '], ':') == LastIndexOf([x], ':') == -1 by {
      assert [x, ' '][..1] == [x] && [x][..0] == "";
    }
    assert GeometryName(s) == s;
    assert "" + [x] == [x] && "" + [c] == [c];
    assert Fields([c], "") == Fields("", [c]) == [[c]];
    assert Fields([' ', c], [x]) == [[x], [c]];
    assert Fields(s, "") == [[x], [c]];
    assert [x][1..] == "";
    assert Lower([x]) == [x - 'A' + 'a'] + Lower("");
  }
}
