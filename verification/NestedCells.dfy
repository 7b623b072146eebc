/** Cells without dimmer channels that lie inside one another: the light of the inner one escapes its
    part's level and, in a fixture of several parts, the fixture's master too. */
module NestedCells {
  import opened Prelude
  import opened GeometryTree
  import opened ChannelMap
  import opened ParameterModel
  import opened FixtureModels
  import opened Dimming
  import opened SoftwareMaster
  import opened Faders
  import opened SyntheticOffsets
  import opened PartLevels
  import opened MasterLevels
  import opened OneByteFixtures
  import opened VirtualDimmers

  /** The i-th parameter is the virtual dimmer of cell inst. */
  predicate IsCellDimmer(ps: seq<Parameter>, i: int, inst: string)
  {
    0 <= i < |ps| && IsDimmer(ps[i]) && ps[i].virtual && !ps[i].master && ps[i].instance == inst
  }

  lemma CellDimmerMade(ps: seq<Parameter>, raw: seq<uint16>, tree: Option<Tree>, m: Model, inst: string) returns (i: nat)
    requires Derived(ps, raw, tree, m) && IsCell(ps, inst) && WantsVirtual(WithCells(ps), inst)
    ensures IsCellDimmer(m.parameters, i, inst) && m.parameters[i].virtualOf == ScopeOf(WithCells(ps), inst).additive
  {
    var v := CellVirtualMade(ps, inst);
    var base := WithVirtuals(WithCells(ps), CellsOf(ps));
    hide ScopeOf, CellsOf, WithCells, WithVirtuals, WantsVirtual, PartsOf, MasterTargets, WithGoverned, IsInner, IsCell;
    i :| 0 <= i < |base| && base[i] == v;
  }

  /** Two cells without dimmer channels in one part, one geometry under the other: the virtual dimmer
      of the lower one is marked inner. With VirtualCellDimmed, its colours stay at full whatever the
      part's fader says. */
  lemma NestedCellIsInner(cfs: ChannelMap, footprint: uint16, ps: seq<Parameter>, raw: seq<uint16>, tree: Tree, m: Model,
                          outer: string, nested: string) returns (i: nat)
    requires SharedOut(cfs, footprint, ps, raw) && Derived(ps, raw, Some(tree), m)
    requires IsCell(ps, outer) && IsCell(ps, nested) && WantsVirtual(WithCells(ps), outer) && WantsVirtual(WithCells(ps), nested)
    requires PartKey(outer) == PartKey(nested) && nested in tree && tree[nested] == outer
    ensures IsCellDimmer(m.parameters, i, nested) && m.parameters[i].inner
    ensures m.parameters[i].virtualOf == ScopeOf(WithCells(ps), nested).additive
  {
    i := CellDimmerMade(ps, raw, Some(tree), m, nested);
    var j := CellDimmerMade(ps, raw, Some(tree), m, outer);
    MarksAgree(cfs, footprint, ps, raw, Some(tree), m);
    hide SharedOut, Derived, IsCell, WantsVirtual, WithCells, PartKey, ScopeOf;
    var holders := Holders(m.parameters, PartKey(nested));
    assert InPart(m.parameters[j], PartKey(nested)) && outer in holders;
    assert HitsWithin(tree, outer, holders, CLIMB_LIMIT);
    assert IsInner(m.parameters, Some(tree), m.parameters[i]);
  }

  lemma MarksAgree(cfs: ChannelMap, footprint: uint16, ps: seq<Parameter>, raw: seq<uint16>, tree: Option<Tree>, m: Model)
    requires SharedOut(cfs, footprint, ps, raw) && Derived(ps, raw, tree, m)
    ensures InnerMarked(m.parameters, tree)
  {
    BuiltChannels(cfs, footprint, ps, raw);
    BuiltInnerMarked(ps, raw, tree, m);
  }

  // ---------------------------------------------------------------- fixtures without dimmer channels

  /** Two dimmers of different parts make a fixture of several parts. */
  lemma SeveralParts(ps: seq<Parameter>, raw: seq<uint16>, tree: Option<Tree>, m: Model, a: nat, b: nat)
    requires Derived(ps, raw, tree, m) && a < |Base(ps)| && b < |Base(ps)| && IsDimmer(Base(ps)[a]) && IsDimmer(Base(ps)[b])
    requires PartKey(Base(ps)[a].instance) != PartKey(Base(ps)[b].instance)
    ensures |m.parts| >= 2
  {
    KeysOfModel(ps, raw, tree, m);
    var i := KeyedPart(Base(ps), CellsOf(ps), a);
    var j := KeyedPart(Base(ps), CellsOf(ps), b);
    hide *;
    assert i != j;
  }

  lemma KeyedPart(base: seq<Parameter>, cells: seq<Cell>, i: nat) returns (j: nat)
    requires i < |base| && IsDimmer(base[i])
    ensures j < |PartsOf(base, cells)| && PartsOf(base, cells)[j].key == PartKey(base[i].instance)
  {
    DimmerHasPart(base, cells, i);
    j :| 0 <= j < |PartsOf(base, cells)| && PartsOf(base, cells)[j].key == PartKey(base[i].instance);
  }

  lemma KeysOfModel(ps: seq<Parameter>, raw: seq<uint16>, tree: Option<Tree>, m: Model)
    requires Derived(ps, raw, tree, m)
    ensures |m.parts| == |BaseParts(ps)| && forall j :: 0 <= j < |m.parts| ==> m.parts[j].key == BaseParts(ps)[j].key
  {}

  lemma OnlyVirtuals(ps: seq<Parameter>, i: nat)
    requires NoDimmer(ps) && i < |Base(ps)| && IsDimmer(Base(ps)[i])
    ensures Base(ps)[i].virtual && !IsMasterKey(Base(ps), CellsOf(ps), PartKey(Base(ps)[i].instance))
  {
    VirtualsShape(ps);
    DimmerHasPart(Base(ps), CellsOf(ps), i);
    var celled := WithCells(ps);
    assert forall k :: 0 <= k < |celled| ==> Base(ps)[..|celled|][k] == celled[k];
  }

  lemma PartUnmastered(ps: seq<Parameter>, j: nat) returns (i: nat)
    requires NoDimmer(ps) && j < |BaseParts(ps)|
    ensures !BaseParts(ps)[j].master && i < |Base(ps)| && IsDimmer(Base(ps)[i]) && PartKey(Base(ps)[i].instance) == BaseParts(ps)[j].key
  {
    KeysDistinct(Base(ps));
    var key := PartKeys(Base(ps))[j];
    hide PartKey, PartKeys, Base, CellsOf, IsMasterKey;
    assert key in PartKeys(Base(ps));
    i :| 0 <= i < |Base(ps)| && IsDimmer(Base(ps)[i]) && PartKey(Base(ps)[i].instance) == key;
    OnlyVirtuals(ps, i);
  }

  /** Where no channel is a dimmer there is no master part, so nothing is governed. */
  lemma NoMasterPart(cfs: ChannelMap, footprint: uint16, ps: seq<Parameter>, raw: seq<uint16>, tree: Tree, m: Model)
    requires Finished(cfs, footprint, ps, raw, tree, m) && NoDimmer(ps)
    ensures forall j :: 0 <= j < |m.parts| ==> !m.parts[j].master && !m.parts[j].governed
    ensures forall path :: MeetsNone(WithoutMaster(m), m.parts, path)
  {
    FinishedWell(cfs, footprint, ps, raw, tree, m);
    PlanBehind(ps, raw, Some(tree), m);
    BuiltChannels(cfs, footprint, ps, raw);
    BaseFacts(ps);
    var base, all := Base(ps), WithoutMaster(m);
    hide PartKey, Base, BaseParts, AtOrUnder, Finished, InnerMarked, PartsPure, OwnTargets, NoDimmer, ChannelsThenVirtuals, TargetsApart;
    forall j | 0 <= j < |m.parts| ensures !m.parts[j].master && exists i :: 0 <= i < |all| && InPart(all[i], m.parts[j].key) {
      var i := PartUnmastered(ps, j);
      assert InPart(all[i], m.parts[j].key);
    }
    assert forall i :: 0 <= i < |all| ==> !IsMasterChannel(m.parts, all[i]);
    forall j | 0 <= j < |m.parts| ensures !m.parts[j].governed {
      assert GovernedRight(m, Some(tree), j);
    }
  }

  /** At these levels neither a part nor the master dims the light of colour channel o on path. */
  ghost predicate StaysLit(m: Model, o: uint16, path: seq<string>, level: int -> real)
  {
    |m.parameters| > 0 && ColourScale(m.parameters, o, level) == 1.0 && o !in SoftwareTargets(m) && ColourLight(m, o, path, level) == 1.0
  }

  /** Whatever the type fader and the part's fader say, the colours of an inner cell stay full in a
      fixture without dimmer channels. */
  lemma InnerCellEscapes(cfs: ChannelMap, footprint: uint16, ps: seq<Parameter>, raw: seq<uint16>, tree: Tree, defs: seq<FaderDef>, claims: Claims,
                         rig: Rig, entry: string, i: nat, j: nat, o: uint16, path: seq<string>)
    requires entry in rig && Finished(cfs, footprint, ps, raw, tree, rig[entry].model) && OffsetsDistinct(rig[entry].model.parameters) && NoDimmer(ps)
    requires i < |rig[entry].model.parameters| && rig[entry].model.parameters[i].inner && Scales(rig[entry].model.parameters[i], o)
    requires j < |rig[entry].model.parts| && InPart(rig[entry].model.parameters[i], rig[entry].model.parts[j].key)
    requires TwoFaders(defs, claims, entry, rig[entry].model.parts[j].key)
    requires IsPath(tree, path) && |path| <= CLIMB_LIMIT && rig[entry].model.parameters[i].instance in path
    ensures StaysLit(rig[entry].model, o, path, Levels(defs, claims, rig, entry))
  {
    var m := rig[entry].model;
    NoMasterPart(cfs, footprint, ps, raw, tree, m);
    TwoFadersAlone(cfs, footprint, ps, raw, tree, defs, claims, rig, entry, j);
    CellUnderMaster(cfs, footprint, ps, raw, tree, defs, claims, rig, entry, 0, 1, i, j, o, path);
    VirtualCellDimmed(cfs, footprint, ps, raw, tree, defs, claims, rig, entry, m.parts[j].key, 1, i, o);
    ReachListed(cfs, footprint, ps, raw, tree, m, i, j, o);
  }

  // ---------------------------------------------------------------- such a fixture

  /** Three RGB cells in two parts: P 1, P 2 inside it, and Q 1. */
  const THREE: seq<string> := ["P 1", "P 2", "Q 1"]
  const INSIDE: Tree := map["P 2" := "P 1"]

  lemma ThreeNames()
    ensures Names(THREE)
  {
    assert "P 1"[2] != "P 2"[2] && "P 1"[0] != "Q 1"[0] && "P 2"[0] != "Q 1"[0];
  }

  lemma ThreeKeys()
    ensures PartKey("P 1") == "p" && PartKey("P 2") == "p" && PartKey("Q 1") == "q"
  {
    NumberedPart('P', '1');
    NumberedPart('P', '2');
    NumberedPart('Q', '1');
    assert "P 1" == ['P', ' ', '1'] && "P 2" == ['P', ' ', '2'] && "Q 1" == ['Q', ' ', '1'];
    assert 'P' - 'A' + 'a' == 'p' && 'Q' - 'A' + 'a' == 'q';
  }

  /** Fewer cells than 256 have offsets of their own. */
  lemma FewCellsApart(l: seq<Slot>, tree: Tree, m: Model)
    requires |l| <= 255 && Derived(ChannelsOf(l), [], Some(tree), m)
    ensures OffsetsDistinct(m.parameters)
  {
    var ps := ChannelsOf(l);
    LayoutShared(l);
    ChannelsAt(l);
    BuiltOffsets(ps, [], Some(tree), m);
    InOneUniverse(ps, |m.parts| >= 2);
    CellCount(ps, 255);
    hide ChannelsOf, RgbCells;
    forall c | c in CellsOf(ps) ensures !WrapsOnto(ps, c) {
      NumberOf(ps, c);
    }
  }

  lemma ThreeFinished(m: Model)
    requires Derived(ChannelsOf(RgbCells(THREE)), [], Some(INSIDE), m)
    ensures Finished(MapOf(RgbCells(THREE)), 9, ChannelsOf(RgbCells(THREE)), [], INSIDE, m)
    ensures OffsetsDistinct(m.parameters) && NoDimmer(ChannelsOf(RgbCells(THREE)))
  {
    var ps := ChannelsOf(RgbCells(THREE));
    LayoutShared(RgbCells(THREE));
    FewCellsApart(RgbCells(THREE), INSIDE, m);
    ThreeNames();
    ThreeKeys();
    RgbRun(THREE, 0);
    RgbCellsWant(THREE, 0);
    RgbCellsWant(THREE, 2);
    hide *;
    CellsOfSeveral(ps, [], Some(INSIDE), m, "P 1", "Q 1");
  }

  lemma CellsOfSeveral(ps: seq<Parameter>, raw: seq<uint16>, tree: Option<Tree>, m: Model, a: string, b: string)
    requires Derived(ps, raw, tree, m) && PartKey(a) != PartKey(b)
    requires IsCell(ps, a) && IsCell(ps, b) && WantsVirtual(WithCells(ps), a) && WantsVirtual(WithCells(ps), b)
    ensures |m.parts| >= 2
  {
    var v := CellVirtualMade(ps, a);
    var w := CellVirtualMade(ps, b);
    var i :| 0 <= i < |Base(ps)| && Base(ps)[i] == v;
    var k :| 0 <= k < |Base(ps)| && Base(ps)[k] == w;
    SeveralParts(ps, raw, tree, m, i, k);
  }

  lemma NestedInThree(m: Model) returns (i: nat, j: nat)
    requires Derived(ChannelsOf(RgbCells(THREE)), [], Some(INSIDE), m)
    ensures IsCellDimmer(m.parameters, i, "P 2") && m.parameters[i].inner && 4 in m.parameters[i].virtualOf
    ensures j < |m.parts| && m.parts[j].key == "p" && InPart(m.parameters[i], "p")
  {
    var l := RgbCells(THREE);
    var ps := ChannelsOf(l);
    LayoutShared(l);
    ThreeFinished(m);
    ThreeNames();
    ThreeKeys();
    RgbCellsWant(THREE, 0);
    RgbCellsWant(THREE, 1);
    RgbRun(THREE, 1);
    BuiltChannels(MapOf(l), 9, ps, []);
    ChannelsAt(l);
    hide RgbCells;
    i := NestedCellIsInner(MapOf(l), 9, ps, [], INSIDE, m, "P 1", "P 2");
    j := PartOfDimmer(ps, [], Some(INSIDE), m, i);
    hide *;
    ColourListed(ps, "P 2", 3);
  }

  /** The first channel of an RGB cell is one of the cell's colours. */
  lemma ColourListed(ps: seq<Parameter>, inst: string, n: nat)
    requires RunAt(ps, inst, n, RGB) && IsCell(ps, inst)
    ensures ps[n].offset in ScopeOf(WithCells(ps), inst).additive
  {
    var qs := WithCells(ps);
    assert qs[n].cell == inst && qs[n].offset == ps[n].offset && qs[n].attribute == RGB[0];
    ScopeAdditive(qs, inst);
  }

  /** A fixture with a cell that stays lit: P 2 inside P 1, both RGB without a dimmer channel, beside the
      cell Q 1 of another part. At any levels of the type fader and of the part's fader, the colours of
      P 2 are neither scaled by their part nor multiplied by the software master. */
  lemma NestedCellEscapes(m: Model, defs: seq<FaderDef>, claims: Claims) returns (i: nat)
    requires Derived(ChannelsOf(RgbCells(THREE)), [], Some(INSIDE), m) && TwoFaders(defs, claims, "f", "p")
    ensures SharedOut(MapOf(RgbCells(THREE)), 9, ChannelsOf(RgbCells(THREE)), []) && |m.parameters| > 0 && |m.parts| >= 2
    ensures IsCellDimmer(m.parameters, i, "P 2") && m.parameters[i].inner && 4 in m.parameters[i].virtualOf
    ensures forall o :: o in m.parameters[i].virtualOf ==>
              StaysLit(m, o, ["P 2", "P 1"], Levels(defs, claims, map["f" := Fixture(m, "", "")], "f"))
  {
    var l, rig := RgbCells(THREE), map["f" := Fixture(m, "", "")];
    var j;
    i, j := NestedInThree(m);
    ThreeFinished(m);
    InsidePath();
    hide *;
    forall o | o in m.parameters[i].virtualOf ensures StaysLit(m, o, ["P 2", "P 1"], Levels(defs, claims, rig, "f")) {
      InnerCellEscapes(MapOf(l), 9, ChannelsOf(l), [], INSIDE, defs, claims, rig, "f", i, j, o, ["P 2", "P 1"]);
    }
  }

  lemma InsidePath()
    ensures IsPath(INSIDE, ["P 2", "P 1"])
  {
    assert "P 1"[2] != "P 2"[2] && ["P 2", "P 1"][1..] == ["P 1"];
  }
}
