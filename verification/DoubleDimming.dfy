/** Two fixtures whose light passes the fixture's master twice: master channels one under the other, and a
    part that is only partly under the master channel. */
module DoubleDimming {
  import opened Prelude
  import opened GeometryTree
  import opened ChannelMap
  import opened ParameterModel
  import opened FixtureModels
  import opened Dimming
  import opened SoftwareMaster
  import opened Faders
  import opened SyntheticOffsets
  import opened PartLevels
  import opened MasterLevels
  import opened OneByteFixtures
  import opened NestedCells

  // ---------------------------------------------------------------- fixtures without colours

  /** No channel is red, so no scope wants a virtual dimmer. */
  lemma {:induction false} NoVirtuals(qs: seq<Parameter>, cells: seq<Cell>)
    requires forall i :: 0 <= i < |qs| ==> qs[i].attribute !in {"ColorAdd_R", "ColorRGB_Red"}
    ensures WithVirtuals(qs, cells) == qs
  {
    ScopeRecords(qs, "");
    if cells != [] {
      NoVirtuals(qs, cells[..|cells| - 1]);
      ScopeRecords(qs, cells[|cells| - 1].id);
    }
  }

  // ---------------------------------------------------------------- heads and pixels

  /** Channels 0 to 6: the dimmer of H 1, the dimmer and pan of H 2, a dimmer and tilt each for P 1 and P 2. */
  function InstanceAt(i: nat): string
  {
    if i < 1 then "H 1" else if i < 3 then "H 2" else if i < 5 then "P 1" else "P 2"
  }

  function AttributeAt(i: nat): string
  {
    if i == 2 then "Pan" else if i == 4 || i == 6 then "Tilt" else "Dimmer"
  }

  function HeadsAndPixels(): (l: seq<Slot>)
    ensures |l| == 7
  {
    seq(7, i requires 0 <= i < 7 => Slot(InstanceAt(i), AttributeAt(i)))
  }

  lemma NameAt(i: nat)
    ensures (InstanceAt(i) == "H 1" <==> i < 1) && (InstanceAt(i) == "H 2" <==> 1 <= i < 3)
    ensures (InstanceAt(i) == "P 1" <==> 3 <= i < 5) && (InstanceAt(i) == "P 2" <==> 5 <= i)
  {
    NamesApart();
  }

  lemma NamesApart()
    ensures "H 1" != "H 2" && "P 1" != "P 2" && "H 1" != "P 1" && "H 1" != "P 2" && "H 2" != "P 1" && "H 2" != "P 2"
  {
    assert "H 1"[2] != "H 2"[2] && "P 1"[2] != "P 2"[2] && 'H' != 'P';
    assert "H 1"[0] == "H 2"[0] == 'H' && "P 1"[0] == "P 2"[0] == 'P';
  }

  predicate OfHeads(p: Parameter, i: nat)
  {
    p.instance == InstanceAt(i) && p.attribute == AttributeAt(i) && p.offset == i + 1 && !p.virtual && !p.master
  }

  /** ps are channels of the fixture. */
  predicate HeadChannels(ps: seq<Parameter>)
  {
    |ps| == 7 && forall i :: 0 <= i < 7 ==> OfHeads(ps[i], i)
  }

  lemma HeadsAt()
    ensures HeadChannels(ChannelsOf(HeadsAndPixels()))
  {
    ChannelsAt(HeadsAndPixels());
    var ps := ChannelsOf(HeadsAndPixels());
    forall i | 0 <= i < 7 ensures OfHeads(ps[i], i) {
      assert IsSlot(ps[i], i, HeadsAndPixels()[i]);
    }
  }

  lemma HeadRuns(ps: seq<Parameter>)
    requires HeadChannels(ps)
    ensures RunAt(ps, "H 1", 0, ["Dimmer"]) && RunAt(ps, "H 2", 1, ["Dimmer", "Pan"])
    ensures RunAt(ps, "P 1", 3, ["Dimmer", "Tilt"]) && RunAt(ps, "P 2", 5, ["Dimmer", "Tilt"])
  {
    forall i | 0 <= i < 7
      ensures ps[i].attribute == AttributeAt(i)
      ensures (ps[i].instance == "H 1" <==> i < 1) && (ps[i].instance == "H 2" <==> 1 <= i < 3)
      ensures (ps[i].instance == "P 1" <==> 3 <= i < 5) && (ps[i].instance == "P 2" <==> 5 <= i)
    {
      NameAt(i);
      assert OfHeads(ps[i], i);
    }
    hide InstanceAt, HeadChannels;
  }

  /** The pixels are cells and the heads are not. */
  lemma HeadCells(ps: seq<Parameter>, i: nat)
    requires HeadChannels(ps) && i < 7
    ensures IsCell(ps, ps[i].instance) <==> i >= 3
  {
    NameAt(i);
    NamesApart();
    assert OfHeads(ps[i], i);
    HeadRuns(ps);
    hide HeadChannels, InstanceAt, OfHeads;
    PeersAreCells(ps, "P 1", 3, "P 2", 5, ["Dimmer", "Tilt"]);
    if i < 3 {
      HeadAlone(ps, ps[i].instance);
    }
  }

  lemma HeadAlone(ps: seq<Parameter>, inst: string)
    requires RunAt(ps, "H 1", 0, ["Dimmer"]) && RunAt(ps, "H 2", 1, ["Dimmer", "Pan"]) && |ps| == 7
    requires RunAt(ps, "P 1", 3, ["Dimmer", "Tilt"]) && RunAt(ps, "P 2", 5, ["Dimmer", "Tilt"])
    requires inst == "H 1" || inst == "H 2"
    ensures !IsCell(ps, inst)
  {
    RunAttributes(ps, "H 1", 0, ["Dimmer"]);
    RunAttributes(ps, "H 2", 1, ["Dimmer", "Pan"]);
    RunAttributes(ps, "P 1", 3, ["Dimmer", "Tilt"]);
    RunAttributes(ps, "P 2", 5, ["Dimmer", "Tilt"]);
    forall other | other in Instances(ps) && other != inst ensures AttributesOf(ps, other) != AttributesOf(ps, inst) {
      var k :| 0 <= k < 7 && ps[k].instance == other;
      assert other in {"H 1", "H 2", "P 1", "P 2"};
      assert "Pan" in AttributesOf(ps, "H 2") && "Tilt" in AttributesOf(ps, "P 1") && "Tilt" in AttributesOf(ps, "P 2");
      assert "Pan" !in AttributesOf(ps, "H 1") && "Tilt" !in AttributesOf(ps, "H 1") && "Tilt" !in AttributesOf(ps, "H 2");
    }
  }

  lemma HeadKeys()
    ensures PartKey("H 1") == PartKey("H 2") == "h" && PartKey("P 1") == PartKey("P 2") == "p"
  {
    NumberedPart('H', '1');
    NumberedPart('H', '2');
    NumberedPart('P', '1');
    NumberedPart('P', '2');
    assert "H 1" == ['H', ' ', '1'] && "H 2" == ['H', ' ', '2'] && "P 1" == ['P', ' ', '1'] && "P 2" == ['P', ' ', '2'];
    assert 'P' - 'A' + 'a' == 'p' && 'H' - 'A' + 'a' == 'h';
  }

  lemma HeadKeyAt(p: Parameter, i: nat)
    requires i < 7 && OfHeads(p, i)
    ensures PartKey(p.instance) == if i < 3 then "h" else "p"
    ensures "h" != "p"
  {
    HeadKeys();
    assert "h"[0] != "p"[0];
  }

  /** qs are the channels with their cells marked. */
  predicate HeadsCelled(qs: seq<Parameter>)
  {
    HeadChannels(qs) && forall i :: 0 <= i < 7 ==> (qs[i].cell == "" <==> i < 3)
  }

  lemma HeadBase(ps: seq<Parameter>)
    requires HeadChannels(ps)
    ensures Base(ps) == WithCells(ps) && |WithCells(ps)| == 7 && HeadsCelled(WithCells(ps))
  {
    var qs := WithCells(ps);
    forall i | 0 <= i < 7 ensures OfHeads(qs[i], i) && (qs[i].cell == "" <==> i < 3) && qs[i].attribute !in {"ColorAdd_R", "ColorRGB_Red"} {
      HeadCells(ps, i);
      NameAt(i);
      assert OfHeads(ps[i], i);
    }
    hide HeadChannels, OfHeads, InstanceAt;
    NoVirtuals(qs, CellsOf(ps));
  }

  /** The heads' part holds no cells, the pixels' does. */
  lemma HeadHolds(ps: seq<Parameter>, key: string)
    requires HeadChannels(ps) && key in {"h", "p"}
    ensures HoldsCells(WithCells(ps), CellsOf(ps), key) <==> key == "p"
  {
    var qs, cells := WithCells(ps), CellsOf(ps);
    hide HeadChannels, HeadsCelled, OfHeads;
    HeadBase(ps);
    forall i | 0 <= i < 7 ensures HeadKeyed(qs[i], i) {
      HeadKeyedAt(qs, i);
    }
    forall k | 0 <= k < |cells| ensures PartKey(cells[k].id) == "p" {
      HeadCellKey(ps, k);
    }
    HoldsByKey(qs, cells, key);
  }

  predicate HeadKeyed(q: Parameter, i: nat)
  {
    PartKey(q.instance) == (if i < 3 then "h" else "p") && (q.cell == "" <==> i < 3) && !q.virtual && (i == 3 ==> IsDimmer(q))
  }

  lemma HeadKeyedAt(qs: seq<Parameter>, i: nat)
    requires HeadsCelled(qs) && i < 7
    ensures HeadKeyed(qs[i], i)
  {
    assert OfHeads(qs[i], i);
    HeadKeyAt(qs[i], i);
  }

  lemma HoldsByKey(qs: seq<Parameter>, cells: seq<Cell>, key: string)
    requires |qs| == 7 && key in {"h", "p"} && (forall i :: 0 <= i < 7 ==> HeadKeyed(qs[i], i))
    requires forall k :: 0 <= k < |cells| ==> PartKey(cells[k].id) == "p"
    ensures HoldsCells(qs, cells, key) <==> key == "p"
  {
    assert "h"[0] != "p"[0];
    assert HeadKeyed(qs[3], 3);
  }

  lemma HeadCellKey(ps: seq<Parameter>, k: nat)
    requires HeadChannels(ps) && k < |CellsOf(ps)|
    ensures PartKey(CellsOf(ps)[k].id) == "p"
  {
    CellsListed(ps, |ps|);
    assert ps[..|ps|] == ps;
    var id := CellsOf(ps)[k].id;
    assert id in CellIds(ps, |ps|);
    var i :| 0 <= i < |ps| && ps[i].instance == id;
    HeadCells(ps, i);
    assert OfHeads(ps[i], i);
    HeadKeyAt(ps[i], i);
  }

  /** The heads are the master part. */
  lemma HeadParts(ps: seq<Parameter>)
    requires HeadChannels(ps)
    ensures MasterHas(BaseParts(ps), "h") && !MasterHas(BaseParts(ps), "p")
  {
    var qs := WithCells(ps);
    hide HeadChannels, HeadsCelled, OfHeads;
    HeadBase(ps);
    HeadHolds(ps, "h");
    HeadHolds(ps, "p");
    forall i | 0 <= i < 7 ensures HeadKeyed(qs[i], i) {
      HeadKeyedAt(qs, i);
    }
    HeadDims(qs);
    OnlyHeads(qs, CellsOf(ps));
    MasterParts(ps, "h");
    MasterParts(ps, "p");
  }

  lemma HeadDims(qs: seq<Parameter>)
    requires HeadsCelled(qs)
    ensures IsDimmer(qs[0])
  {
    assert OfHeads(qs[0], 0);
  }

  lemma OnlyHeads(qs: seq<Parameter>, cells: seq<Cell>)
    requires |qs| == 7 && (forall i :: 0 <= i < 7 ==> HeadKeyed(qs[i], i)) && IsDimmer(qs[0])
    requires !HoldsCells(qs, cells, "h") && HoldsCells(qs, cells, "p")
    ensures IsMasterKey(qs, cells, "h") && !IsMasterKey(qs, cells, "p")
  {
    KeysDistinct(qs);
    assert HeadKeyed(qs[0], 0);
    assert "h" in PartKeys(qs);
  }

  lemma MasterParts(ps: seq<Parameter>, key: string)
    ensures MasterHas(BaseParts(ps), key) <==> IsMasterKey(Base(ps), CellsOf(ps), key)
  {
    var ks := PartKeys(Base(ps));
    if IsMasterKey(Base(ps), CellsOf(ps), key) {
      var j :| 0 <= j < |ks| && ks[j] == key;
      assert BaseParts(ps)[j].master && BaseParts(ps)[j].key == key;
    }
  }

  /** m is a finished model of the fixture. */
  ghost predicate HeadModel(m: Model)
  {
    |m.parameters| > 0 && HeadChannels(WithoutMaster(m)) && MasterHas(m.parts, "h") && !MasterHas(m.parts, "p")
  }

  lemma HeadsModelled(tree: Tree, m: Model)
    requires Derived(ChannelsOf(HeadsAndPixels()), [], Some(tree), m)
    ensures Finished(MapOf(HeadsAndPixels()), 7, ChannelsOf(HeadsAndPixels()), [], tree, m) && OffsetsDistinct(m.parameters) && HeadModel(m)
  {
    var ps := ChannelsOf(HeadsAndPixels());
    HeadsAt();
    LayoutShared(HeadsAndPixels());
    FewCellsApart(HeadsAndPixels(), tree, m);
    HeadBase(ps);
    HeadParts(ps);
    hide HeadChannels, HeadsAndPixels;
    HeadsSeveral(ps, tree, m);
    PlanBehind(ps, [], Some(tree), m);
    HeadsKept(ps, tree, m);
  }

  lemma HeadsSeveral(ps: seq<Parameter>, tree: Tree, m: Model)
    requires Derived(ps, [], Some(tree), m) && HeadsCelled(Base(ps))
    ensures |m.parts| >= 2
  {
    var base := Base(ps);
    assert OfHeads(base[0], 0) && OfHeads(base[3], 3);
    HeadKeyAt(base[0], 0);
    HeadKeyAt(base[3], 3);
    hide *;
    SeveralParts(ps, [], Some(tree), m, 0, 3);
  }

  lemma HeadsKept(ps: seq<Parameter>, tree: Tree, m: Model)
    requires |m.parameters| > 0 && HeadsCelled(Base(ps)) && MasterHas(BaseParts(ps), "h") && !MasterHas(BaseParts(ps), "p")
    requires WithoutMaster(m) == WithInner(Base(ps), Some(tree)) && m.parts == WithGoverned(WithoutMaster(m), BaseParts(ps), Some(tree))
    ensures HeadModel(m)
  {
    var base, all, parts := Base(ps), WithoutMaster(m), BaseParts(ps);
    forall i | 0 <= i < 7 ensures OfHeads(all[i], i) {
      assert OfHeads(base[i], i);
    }
    var j :| 0 <= j < |parts| && parts[j].master && parts[j].key == "h";
    assert m.parts[j].master && m.parts[j].key == "h";
  }

  lemma HeadMasters(m: Model, i: nat)
    requires HeadModel(m) && i < 7
    ensures IsMasterChannel(m.parts, WithoutMaster(m)[i]) <==> i < 2
    ensures InPart(WithoutMaster(m)[i], "p") <==> i == 3 || i == 5
    ensures OfHeads(WithoutMaster(m)[i], i) && !WithoutMaster(m)[i].virtual
  {
    assert OfHeads(WithoutMaster(m)[i], i);
    HeadKeyAt(WithoutMaster(m)[i], i);
  }

  // ---------------------------------------------------------------- how often the light meets the heads

  lemma {:induction false} PassesUpTo(all: seq<Parameter>, parts: seq<Part>, path: seq<string>, n: nat)
    requires n <= |all| && forall i :: 2 <= i < |all| ==> !IsMasterChannel(parts, all[i])
    ensures MasterPasses(all[..n], parts, path) == (if n >= 1 && Meets(all, parts, path, 0) then 1 else 0) + if n >= 2 && Meets(all, parts, path, 1) then 1 else 0
  {
    if n > 0 {
      PassesUpTo(all, parts, path, n - 1);
      assert all[..n][..n - 1] == all[..n - 1];
      MeetsLast(all[..n], parts, path);
    }
  }

  lemma HeadPasses(m: Model, path: seq<string>)
    requires HeadModel(m)
    ensures MasterPasses(WithoutMaster(m), m.parts, path) == (if "H 1" in path then 1 else 0) + if "H 2" in path then 1 else 0
  {
    var all := WithoutMaster(m);
    forall i | 0 <= i < 7 ensures IsMasterChannel(m.parts, all[i]) <==> i < 2 {
      HeadMasters(m, i);
    }
    assert OfHeads(all[0], 0) && OfHeads(all[1], 1);
    hide HeadModel;
    PassesUpTo(all, m.parts, path, 7);
    assert all[..7] == all;
  }

  lemma HeadGeometries(m: Model)
    requires HeadModel(m)
    ensures MasterGeometries(WithoutMaster(m), m.parts) == {"H 1", "H 2"}
    ensures exists i :: 0 <= i < |WithoutMaster(m)| && IsMasterChannel(m.parts, WithoutMaster(m)[i])
  {
    var all := WithoutMaster(m);
    forall i | 0 <= i < 7 ensures (IsMasterChannel(m.parts, all[i]) <==> i < 2) && (i == 0 ==> all[i].instance == "H 1") && (i == 1 ==> all[i].instance == "H 2") {
      HeadMasters(m, i);
    }
    hide HeadModel;
    assert IsMasterChannel(m.parts, all[0]) && IsMasterChannel(m.parts, all[1]);
  }

  /** The pixels have one dimmer to a geometry, and that of P 1 is on any path from there. */
  lemma PixelDimmers(m: Model, path: seq<string>)
    requires HeadModel(m) && "P 1" in path
    ensures OnePerGeometry(WithoutMaster(m), "p") && DimmerOn(m, "p", path)
  {
    var all := WithoutMaster(m);
    forall i | 0 <= i < 7 ensures (InPart(all[i], "p") <==> i == 3 || i == 5) && !all[i].virtual && all[i].instance == InstanceAt(i) {
      HeadMasters(m, i);
    }
    NamesApart();
    assert Dims(all[3], "p", path);
    hide HeadModel;
  }

  lemma PixelPart(tree: Tree, m: Model) returns (j: nat)
    requires Derived(ChannelsOf(HeadsAndPixels()), [], Some(tree), m) && |m.parts| >= 2 && HeadModel(m)
    ensures j < |m.parts| && m.parts[j].key == "p" && !m.parts[j].master
  {
    HeadMasters(m, 3);
    LayoutShared(HeadsAndPixels());
    BuiltChannels(MapOf(HeadsAndPixels()), 7, ChannelsOf(HeadsAndPixels()), []);
    assert m.parameters[3] == WithoutMaster(m)[3];
    hide *;
    j := PartOfDimmer(ChannelsOf(HeadsAndPixels()), [], Some(tree), m, 3);
  }

  // ---------------------------------------------------------------- the two fixtures

  /** H 2 under H 1, and the pixels under H 2. */
  const NESTED: Tree := map["H 2" := "H 1", "P 1" := "H 2", "P 2" := "H 2"]
  const NESTED_PATH: seq<string> := ["P 1", "H 2", "H 1"]

  /** P 1 under H 1, and nothing else under anything. */
  const PARTLY: Tree := map["P 1" := "H 1"]
  const PARTLY_PATH: seq<string> := ["P 1", "H 1"]

  lemma NestedTree()
    ensures IsPath(NESTED, NESTED_PATH) && "P 1" in NESTED_PATH && "H 1" in NESTED_PATH && "H 2" in NESTED_PATH
    ensures AtOrUnder(NESTED, "P 1", {"H 1", "H 2"}) && AtOrUnder(NESTED, "P 2", {"H 1", "H 2"})
  {
    NamesApart();
    assert NESTED_PATH[1..] == ["H 2", "H 1"];
    TopPath(NESTED, "H 2", "H 1");
    Reaches(NESTED, "P 1", {"H 1", "H 2"});
    Reaches(NESTED, "P 2", {"H 1", "H 2"});
  }

  lemma PartlyTree()
    ensures IsPath(PARTLY, PARTLY_PATH) && "P 1" in PARTLY_PATH && "H 1" in PARTLY_PATH && "H 2" !in PARTLY_PATH
    ensures !AtOrUnder(PARTLY, "P 2", {"H 1", "H 2"})
  {
    NamesApart();
    TopPath(PARTLY, "P 1", "H 1");
    Reaches(PARTLY, "P 2", {"H 1", "H 2"});
  }

  lemma TopPath(tree: Tree, a: string, b: string)
    requires a in tree && tree[a] == b && b !in tree && a != "" && b != ""
    ensures IsPath(tree, [a, b])
  {
    assert [a, b][1..] == [b];
  }

  lemma Reaches(tree: Tree, inst: string, holders: set<string>)
    requires inst != ""
    ensures inst in tree && tree[inst] != "" && tree[inst] in holders ==> AtOrUnder(tree, inst, holders)
    ensures inst !in tree && inst !in holders ==> !AtOrUnder(tree, inst, holders)
  {
    if inst in tree && tree[inst] in holders {
      assert tree[inst] != "" ==> HitsWithin(tree, tree[inst], holders, CLIMB_LIMIT - 1);
    }
  }

  /** Whether the pixels' part is governed follows from where the two pixels are. */
  lemma PixelsGoverned(tree: Tree, m: Model, j: nat)
    requires HeadModel(m) && j < |m.parts| && GovernedRight(m, Some(tree), j) && m.parts[j].key == "p"
    ensures m.parts[j].governed <==> AtOrUnder(tree, "P 1", {"H 1", "H 2"}) && AtOrUnder(tree, "P 2", {"H 1", "H 2"})
  {
    var all := WithoutMaster(m);
    HeadGeometries(m);
    forall i | 0 <= i < 7
      ensures (InPart(all[i], "p") <==> i == 3 || i == 5) && (i == 3 ==> all[i].instance == "P 1") && (i == 5 ==> all[i].instance == "P 2")
    {
      HeadMasters(m, i);
    }
    hide HeadModel;
    PixelsWhere(tree, all, m.parts);
  }

  lemma PixelsWhere(tree: Tree, all: seq<Parameter>, parts: seq<Part>)
    requires |all| == 7 && all[3].instance == "P 1" && all[5].instance == "P 2"
    requires forall i :: 0 <= i < 7 ==> (InPart(all[i], "p") <==> i == 3 || i == 5)
    requires MasterGeometries(all, parts) == {"H 1", "H 2"} && exists i :: 0 <= i < |all| && IsMasterChannel(parts, all[i])
    ensures (forall i :: 0 <= i < |all| && InPart(all[i], "p") ==> UnderMaster(all, parts, Some(tree), all[i].instance)) <==>
              AtOrUnder(tree, "P 1", {"H 1", "H 2"}) && AtOrUnder(tree, "P 2", {"H 1", "H 2"})
  {
    assert InPart(all[3], "p") && InPart(all[5], "p");
  }

  /** Under these two faders the light on path is not M times L, where M is between dark and full and L
      not dark. */
  ghost predicate Misses(m: Model, defs: seq<FaderDef>, claims: Claims, path: seq<string>)
    requires |m.parameters| > 0 && TwoFaders(defs, claims, "f", "p")
  {
    var big, l := claims[defs[0].id].level, claims[defs[1].id].level;
    0.0 < big < 1.0 && l != 0.0 ==> PartLight(m, "p", path, Levels(defs, claims, map["f" := Fixture(m, "", "")], "f")) != big * l
  }

  lemma PixelLight(tree: Tree, m: Model, defs: seq<FaderDef>, claims: Claims, j: nat, path: seq<string>)
    requires TwoFaders(defs, claims, "f", "p") && HeadModel(m)
    requires Finished(MapOf(HeadsAndPixels()), 7, ChannelsOf(HeadsAndPixels()), [], tree, m) && OffsetsDistinct(m.parameters)
    requires j < |m.parts| && m.parts[j].key == "p" && !m.parts[j].master
    requires IsPath(tree, path) && |path| <= CLIMB_LIMIT && "P 1" in path
    requires !MeetsOnce(m, path, m.parts[j].governed)
    ensures Misses(m, defs, claims, path)
  {
    hide HeadModel, HeadChannels, HeadsAndPixels;
    PixelDimmers(m, path);
    TwoFadersPart(MapOf(HeadsAndPixels()), 7, ChannelsOf(HeadsAndPixels()), [], tree, defs, claims, map["f" := Fixture(m, "", "")], "f", j, path);
  }

  /** One master channel under the other: the pixels' light passes both, so at M and L it is not M times L. */
  lemma NestedDimsTwice(m: Model, defs: seq<FaderDef>, claims: Claims) returns (j: nat)
    requires Derived(ChannelsOf(HeadsAndPixels()), [], Some(NESTED), m) && TwoFaders(defs, claims, "f", "p")
    ensures SharedOut(MapOf(HeadsAndPixels()), 7, ChannelsOf(HeadsAndPixels()), []) && |m.parameters| > 0
    ensures j < |m.parts| && m.parts[j].key == "p" && m.parts[j].governed && IsPath(NESTED, NESTED_PATH)
    ensures MasterPasses(WithoutMaster(m), m.parts, NESTED_PATH) == 2
    ensures SoftwarePasses(WithoutMaster(m), "p", NESTED_PATH, SoftwareTargets(m)) == 0
    ensures Misses(m, defs, claims, NESTED_PATH)
  {
    HeadsModelled(NESTED, m);
    j := PixelPart(NESTED, m);
    NestedTree();
    HeadPasses(m, NESTED_PATH);
    hide *;
    PixelPasses(NESTED, m, j, NESTED_PATH);
    PixelLight(NESTED, m, defs, claims, j, NESTED_PATH);
  }

  /** How often the master multiplies a pixel's light in software, and when its light meets the master once. */
  lemma PixelPasses(tree: Tree, m: Model, j: nat, path: seq<string>)
    requires Finished(MapOf(HeadsAndPixels()), 7, ChannelsOf(HeadsAndPixels()), [], tree, m) && HeadModel(m)
    requires j < |m.parts| && m.parts[j].key == "p" && !m.parts[j].master
    requires IsPath(tree, path) && |path| <= CLIMB_LIMIT && "P 1" in path
    ensures m.parts[j].governed <==> AtOrUnder(tree, "P 1", {"H 1", "H 2"}) && AtOrUnder(tree, "P 2", {"H 1", "H 2"})
    ensures SoftwarePasses(WithoutMaster(m), "p", path, SoftwareTargets(m)) == if m.parts[j].governed then 0 else 1
    ensures MeetsOnce(m, path, m.parts[j].governed) <==>
              MasterPasses(WithoutMaster(m), m.parts, path) == if m.parts[j].governed then 1 else 0
  {
    FinishedWell(MapOf(HeadsAndPixels()), 7, ChannelsOf(HeadsAndPixels()), [], tree, m);
    PixelDimmers(m, path);
    assert GovernedRight(m, Some(tree), j);
    PixelsGoverned(tree, m, j);
    hide HeadModel;
    PassesOfPart(tree, m, j, path);
    PassesCounted(WithoutMaster(m), m.parts, path);
  }

  /** P 1 is under the master channel and P 2 is not, so their part is not governed: the light of P 1 passes
      the master channel and is multiplied in software as well. */
  lemma PartlyDimsTwice(m: Model, defs: seq<FaderDef>, claims: Claims) returns (j: nat)
    requires Derived(ChannelsOf(HeadsAndPixels()), [], Some(PARTLY), m) && TwoFaders(defs, claims, "f", "p")
    ensures SharedOut(MapOf(HeadsAndPixels()), 7, ChannelsOf(HeadsAndPixels()), []) && |m.parameters| > 0
    ensures j < |m.parts| && m.parts[j].key == "p" && !m.parts[j].governed && IsPath(PARTLY, PARTLY_PATH)
    ensures MasterPasses(WithoutMaster(m), m.parts, PARTLY_PATH) == 1
    ensures SoftwarePasses(WithoutMaster(m), "p", PARTLY_PATH, SoftwareTargets(m)) == 1
    ensures Misses(m, defs, claims, PARTLY_PATH)
  {
    HeadsModelled(PARTLY, m);
    j := PixelPart(PARTLY, m);
    PartlyTree();
    HeadPasses(m, PARTLY_PATH);
    hide *;
    PixelPasses(PARTLY, m, j, PARTLY_PATH);
    PixelLight(PARTLY, m, defs, claims, j, PARTLY_PATH);
  }
}
