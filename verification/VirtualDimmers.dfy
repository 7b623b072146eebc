/** What the virtual dimmers of a finished model are, told by the names of its channels: which scopes get
    one, and which colours it scales. */
module VirtualDimmers {
  import opened Prelude
  import opened GeometryTree
  import opened ChannelMap
  import opened ParameterModel
  import opened FixtureModels
  import opened Dimming
  import opened SoftwareMaster
  import opened OneByteFixtures

  // ---------------------------------------------------------------- the parameters of a finished model

  /** p is q but for its inner mark. */
  predicate SameButInner(p: Parameter, q: Parameter)
  {
    p == q.(inner := p.inner)
  }

  /** all is base with inner dimmers marked, and perhaps the software master behind it. */
  ghost predicate Finishes(base: seq<Parameter>, all: seq<Parameter>)
  {
    |base| <= |all| && (forall i :: 0 <= i < |base| ==> SameButInner(all[i], base[i])) && forall i :: |base| <= i < |all| ==> all[i].master
  }

  lemma BaseBehind(ps: seq<Parameter>, raw: seq<uint16>, tree: Option<Tree>, m: Model)
    requires Derived(ps, raw, tree, m)
    ensures Finishes(Base(ps), m.parameters) && m.cells == CellsOf(ps)
  {}

  // ---------------------------------------------------------------- names

  /** An additive colour, by the first nine characters of its name. */
  predicate NamedColour(attribute: string)
  {
    |attribute| >= 9 && (attribute[..9] == "ColorAdd_" || attribute[..9] == "ColorRGB_")
  }

  lemma ColoursByName(attribute: string)
    ensures IsAdditive(attribute) <==> NamedColour(attribute)
  {
    assert |"ColorAdd_"| == 9 && |"ColorRGB_"| == 9;
  }

  /** Parameter i is a channel of the scope of cell. */
  predicate InScopeOf(all: seq<Parameter>, i: int, cell: string)
  {
    0 <= i < |all| && !all[i].virtual && all[i].cell == cell
  }

  /** Parameter i is a colour channel of the scope of cell at offset o. */
  predicate ColourAt(all: seq<Parameter>, i: int, cell: string, o: uint16)
  {
    InScopeOf(all, i, cell) && all[i].offset == o && NamedColour(all[i].attribute)
  }

  ghost predicate HasColour(all: seq<Parameter>, cell: string, o: uint16)
  {
    exists i :: ColourAt(all, i, cell, o)
  }

  /** Parameter i is the virtual dimmer of the scope of cell. */
  predicate IsScopeDimmer(all: seq<Parameter>, i: int, cell: string)
  {
    0 <= i < |all| && all[i].virtual && !all[i].master && all[i].cell == cell
  }

  // ---------------------------------------------------------------- where a virtual dimmer comes from

  lemma {:induction false} CellGetsVirtual(ps: seq<Parameter>, cells: seq<Cell>, i: nat)
    requires i < |cells| && WantsVirtual(ps, cells[i].id)
    ensures VirtualDimmer(ScopeOf(ps, cells[i].id), cells[i].id, SyntheticOffset(cells[i].index)) in CellVirtuals(ps, cells)
  {
    hide ScopeOf, WantsVirtual;
    var n := |cells| - 1;
    if i < n {
      assert cells[..n][i] == cells[i];
      CellGetsVirtual(ps, cells[..n], i);
    }
  }

  /** What the virtual dimmer of cell inst is made to be. */
  predicate IsVirtualOf(ps: seq<Parameter>, inst: string, v: Parameter)
  {
    IsDimmer(v) && v.virtual && !v.master && v.instance == inst && v.virtualOf == ScopeOf(WithCells(ps), inst).additive
  }

  lemma CellVirtualMade(ps: seq<Parameter>, inst: string) returns (v: Parameter)
    requires IsCell(ps, inst) && WantsVirtual(WithCells(ps), inst)
    ensures IsVirtualOf(ps, inst, v) && v in WithVirtuals(WithCells(ps), CellsOf(ps))
  {
    var celled, cells := WithCells(ps), CellsOf(ps);
    CellsListed(ps, |ps|);
    assert ps[..|ps|] == ps;
    var c :| 0 <= c < |CellIds(ps, |ps|)| && CellIds(ps, |ps|)[c] == inst;
    assert cells[c].id == inst;
    hide ScopeOf, WantsVirtual, WithCells, CellsOf;
    CellGetsVirtual(celled, cells, c);
    v := VirtualDimmer(ScopeOf(celled, inst), inst, SyntheticOffset(cells[c].index));
  }

  lemma {:induction false} CellVirtualFrom(ps: seq<Parameter>, cells: seq<Cell>)
    ensures forall v :: v in CellVirtuals(ps, cells) ==> exists k :: FromCell(ps, cells, k, v)
  {
    hide ScopeOf, WantsVirtual;
    if cells != [] {
      var n := |cells| - 1;
      CellVirtualFrom(ps, cells[..n]);
      forall v | v in CellVirtuals(ps, cells) ensures exists k :: FromCell(ps, cells, k, v) {
        if v in CellVirtuals(ps, cells[..n]) {
          var k :| FromCell(ps, cells[..n], k, v);
          assert FromCell(ps, cells, k, v);
        } else {
          assert FromCell(ps, cells, n, v);
        }
      }
    }
  }

  /** v is the virtual dimmer of the k-th cell. */
  predicate FromCell(ps: seq<Parameter>, cells: seq<Cell>, k: int, v: Parameter)
  {
    0 <= k < |cells| && WantsVirtual(ps, cells[k].id) && v == VirtualDimmer(ScopeOf(ps, cells[k].id), cells[k].id, SyntheticOffset(cells[k].index))
  }

  /** v is the virtual dimmer of the fixture's own channels, or of a cell. */
  ghost predicate OfScope(celled: seq<Parameter>, cells: seq<Cell>, v: Parameter)
  {
    (WantsVirtual(celled, "") && v == VirtualDimmer(ScopeOf(celled, ""), "", VIRTUAL_DIMMER_OFFSET)) || exists k :: FromCell(celled, cells, k, v)
  }

  lemma BaseVirtuals(ps: seq<Parameter>, i: nat)
    requires |ps| <= i < |Base(ps)|
    ensures OfScope(WithCells(ps), CellsOf(ps), Base(ps)[i])
  {
    var celled, cells := WithCells(ps), CellsOf(ps);
    hide FromCell;
    CellVirtualFrom(celled, cells);
    Behind(celled, cells, i);
  }

  lemma Behind(celled: seq<Parameter>, cells: seq<Cell>, i: nat)
    requires |celled| <= i < |WithVirtuals(celled, cells)|
    ensures WithVirtuals(celled, cells)[i] in OwnVirtual(celled) + CellVirtuals(celled, cells)
  {
    var own, cv := OwnVirtual(celled), CellVirtuals(celled, cells);
    assert celled + own + cv == celled + (own + cv);
  }

  // ---------------------------------------------------------------- told by names

  /** A channel of the scope of cell has one of these names. */
  ghost predicate HasNamed(all: seq<Parameter>, cell: string, names: set<string>)
  {
    exists i :: InScopeOf(all, i, cell) && all[i].attribute in names
  }

  /** A dimmer channel of part key. */
  predicate DimmerChannel(all: seq<Parameter>, i: int, key: string)
  {
    0 <= i < |all| && !all[i].virtual && all[i].attribute == "Dimmer" && PartKey(all[i].instance) == key
  }

  /** The scope has red, green and blue and no dimmer, and of a cell, its part has none either. */
  ghost predicate LacksDimmer(all: seq<Parameter>, cell: string)
  {
    !HasNamed(all, cell, {"Dimmer"}) && HasNamed(all, cell, {"ColorAdd_R", "ColorRGB_Red"}) &&
    HasNamed(all, cell, {"ColorAdd_G", "ColorRGB_Green"}) && HasNamed(all, cell, {"ColorAdd_B", "ColorRGB_Blue"}) &&
    (cell != "" ==> forall i :: !DimmerChannel(all, i, PartKey(cell)))
  }

  /** all begins with the channels celled, inner marks apart, and the rest is virtual. */
  ghost predicate BeginsWith(celled: seq<Parameter>, all: seq<Parameter>)
  {
    |celled| <= |all| && (forall i :: 0 <= i < |celled| ==> SameButInner(all[i], celled[i]) && !celled[i].virtual) &&
    forall i :: |celled| <= i < |all| ==> all[i].virtual
  }

  lemma SameNamed(celled: seq<Parameter>, all: seq<Parameter>, cell: string, names: set<string>)
    requires BeginsWith(celled, all)
    ensures HasNamed(all, cell, names) <==> ScopeHas(celled, cell, names)
  {
    if i :| 0 <= i < |celled| && celled[i].cell == cell && celled[i].attribute in names {
      assert InScopeOf(all, i, cell);
    }
    if i :| InScopeOf(all, i, cell) && all[i].attribute in names {
      assert celled[i].cell == cell;
    }
  }

  lemma SamePartDimmers(celled: seq<Parameter>, all: seq<Parameter>, key: string)
    requires BeginsWith(celled, all)
    ensures HasRealDimmer(celled, key) <==> exists i :: DimmerChannel(all, i, key)
  {
    if i :| 0 <= i < |celled| && IsDimmer(celled[i]) && !celled[i].virtual && PartKey(celled[i].instance) == key {
      assert DimmerChannel(all, i, key);
    }
    if i :| DimmerChannel(all, i, key) {
      assert IsDimmer(celled[i]);
    }
  }

  lemma WantedByName(celled: seq<Parameter>, all: seq<Parameter>, cell: string)
    requires BeginsWith(celled, all)
    ensures WantsVirtual(celled, cell) <==> LacksDimmer(all, cell)
  {
    ScopeRecords(celled, cell);
    SameNamed(celled, all, cell, {"Dimmer"});
    SameNamed(celled, all, cell, {"ColorAdd_R", "ColorRGB_Red"});
    SameNamed(celled, all, cell, {"ColorAdd_G", "ColorRGB_Green"});
    SameNamed(celled, all, cell, {"ColorAdd_B", "ColorRGB_Blue"});
    hide HasNamed, DimmerChannel, BeginsWith;
    SamePartDimmers(celled, all, PartKey(cell));
  }

  lemma ColoursOf(celled: seq<Parameter>, all: seq<Parameter>, cell: string)
    requires BeginsWith(celled, all) && SortedByOffset(celled)
    ensures NoRepeat(ScopeOf(celled, cell).additive)
    ensures forall o :: o in ScopeOf(celled, cell).additive <==> HasColour(all, cell, o)
  {
    ScopeAdditive(celled, cell);
    var listed := ScopeOf(celled, cell).additive;
    forall o ensures o in listed <==> HasColour(all, cell, o) {
      if o in listed {
        var i :| 0 <= i < |celled| && celled[i].cell == cell && IsAdditive(celled[i].attribute) && celled[i].offset == o;
        ColoursByName(celled[i].attribute);
        assert ColourAt(all, i, cell, o);
      }
      if i :| ColourAt(all, i, cell, o) {
        ColoursByName(celled[i].attribute);
      }
    }
  }

  // ---------------------------------------------------------------- the virtual dimmers of a finished model

  /** m is the finished model of a channel map. */
  ghost predicate Modelled(cfs: ChannelMap, footprint: uint16, ps: seq<Parameter>, raw: seq<uint16>, tree: Option<Tree>, m: Model)
  {
    SharedOut(cfs, footprint, ps, raw) && Derived(ps, raw, tree, m)
  }

  lemma ModelledParts(cfs: ChannelMap, footprint: uint16, ps: seq<Parameter>, raw: seq<uint16>, tree: Option<Tree>, m: Model)
    requires Modelled(cfs, footprint, ps, raw, tree, m)
    ensures SortedByOffset(WithCells(ps)) && BeginsWith(WithCells(ps), m.parameters) && Finishes(Base(ps), m.parameters) && m.cells == CellsOf(ps)
    ensures ChannelsThenVirtuals(WithCells(ps), Base(ps))
  {
    BuiltChannels(cfs, footprint, ps, raw);
    BaseBehind(ps, raw, tree, m);
    VirtualsShape(ps);
    SplitBase(ps, m.parameters);
  }

  lemma SplitBase(ps: seq<Parameter>, all: seq<Parameter>)
    requires Finishes(Base(ps), all) && ChannelsThenVirtuals(WithCells(ps), Base(ps)) && SortedByOffset(ps)
    requires forall i :: 0 <= i < |ps| ==> !ps[i].virtual
    requires forall i :: 0 <= i < |all| && all[i].master ==> all[i].virtual
    ensures BeginsWith(WithCells(ps), all) && SortedByOffset(WithCells(ps))
  {
    var celled := WithCells(ps);
    assert forall i :: 0 <= i < |celled| ==> Base(ps)[..|celled|][i] == celled[i];
  }

  lemma DimmerFrom(cfs: ChannelMap, footprint: uint16, ps: seq<Parameter>, raw: seq<uint16>, tree: Option<Tree>, m: Model, i: nat, cell: string)
    requires Modelled(cfs, footprint, ps, raw, tree, m) && IsScopeDimmer(m.parameters, i, cell)
    ensures |ps| <= i < |Base(ps)| && OfScope(WithCells(ps), m.cells, Base(ps)[i]) && SameButInner(m.parameters[i], Base(ps)[i])
  {
    ModelledParts(cfs, footprint, ps, raw, tree, m);
    hide Modelled, OfScope;
    BaseVirtuals(ps, i);
  }

  /** A virtual dimmer scales, each once, exactly the channels of its scope whose names begin with
      ColorAdd_ or ColorRGB_: white, amber and the rest as well as red, green and blue. */
  lemma VirtualColours(cfs: ChannelMap, footprint: uint16, ps: seq<Parameter>, raw: seq<uint16>, tree: Option<Tree>, m: Model, i: nat, cell: string)
    requires Modelled(cfs, footprint, ps, raw, tree, m) && IsScopeDimmer(m.parameters, i, cell)
    ensures NoRepeat(m.parameters[i].virtualOf)
    ensures forall o :: o in m.parameters[i].virtualOf <==> HasColour(m.parameters, cell, o)
  {
    ModelledParts(cfs, footprint, ps, raw, tree, m);
    DimmerFrom(cfs, footprint, ps, raw, tree, m, i, cell);
    hide Modelled, BeginsWith, HasColour;
    ColoursOf(WithCells(ps), m.parameters, cell);
  }

  /** A scope has a virtual dimmer exactly when it is the fixture's own or a cell's, has red, green and blue
      and no dimmer, and, being a cell, lies in a part without dimmer channels. */
  lemma VirtualScopes(cfs: ChannelMap, footprint: uint16, ps: seq<Parameter>, raw: seq<uint16>, tree: Option<Tree>, m: Model, cell: string)
    requires Modelled(cfs, footprint, ps, raw, tree, m)
    ensures (exists i :: IsScopeDimmer(m.parameters, i, cell)) <==>
              LacksDimmer(m.parameters, cell) && (cell == "" || exists k :: 0 <= k < |m.cells| && m.cells[k].id == cell)
  {
    ModelledParts(cfs, footprint, ps, raw, tree, m);
    hide Modelled, BeginsWith, LacksDimmer;
    WantedByName(WithCells(ps), m.parameters, cell);
    if i :| IsScopeDimmer(m.parameters, i, cell) {
      DimmerFrom(cfs, footprint, ps, raw, tree, m, i, cell);
    }
    if WantsVirtual(WithCells(ps), cell) {
      if cell == "" {
        var v := VirtualDimmer(ScopeOf(WithCells(ps), ""), "", VIRTUAL_DIMMER_OFFSET);
        assert Base(ps)[|WithCells(ps)|] == v;
        assert IsScopeDimmer(m.parameters, |WithCells(ps)|, cell);
      } else if k :| 0 <= k < |m.cells| && m.cells[k].id == cell {
        MadeFor(ps, m.parameters, k);
      }
    }
  }

  lemma MadeFor(ps: seq<Parameter>, all: seq<Parameter>, k: nat)
    requires k < |CellsOf(ps)| && WantsVirtual(WithCells(ps), CellsOf(ps)[k].id) && Finishes(Base(ps), all)
    ensures exists i :: IsScopeDimmer(all, i, CellsOf(ps)[k].id)
  {
    var celled, cells := WithCells(ps), CellsOf(ps);
    CellGetsVirtual(celled, cells, k);
    var v := VirtualDimmer(ScopeOf(celled, cells[k].id), cells[k].id, SyntheticOffset(cells[k].index));
    assert v in Base(ps);
    var i :| 0 <= i < |Base(ps)| && Base(ps)[i] == v;
    assert IsScopeDimmer(all, i, cells[k].id);
  }

  /** It is the only one of its scope, a dimmer of 0 to 255 at the scope's geometry, off the DMX bytes, numbered from
      0xFF00 by its cell in 16 bits. */
  lemma VirtualPlaced(cfs: ChannelMap, footprint: uint16, ps: seq<Parameter>, raw: seq<uint16>, tree: Option<Tree>, m: Model, i: nat, cell: string)
    requires Modelled(cfs, footprint, ps, raw, tree, m) && IsScopeDimmer(m.parameters, i, cell)
    ensures forall k :: IsScopeDimmer(m.parameters, k, cell) ==> k == i
    ensures m.parameters[i].attribute == "Dimmer" && m.parameters[i].instance == cell && m.parameters[i].offsets == []
    ensures m.parameters[i].byteCount == 1 && m.parameters[i].max == 255
    ensures if cell == "" then m.parameters[i].offset == 0xFF00
            else exists k :: 0 <= k < |m.cells| && m.cells[k].id == cell && m.parameters[i].offset == (0xFF00 + m.cells[k].index) % 0x1_0000
  {
    ModelledParts(cfs, footprint, ps, raw, tree, m);
    DimmerFrom(cfs, footprint, ps, raw, tree, m, i, cell);
    CellsNamed(ps);
    hide Modelled, BeginsWith;
    forall k | IsScopeDimmer(m.parameters, k, cell) ensures k == i {
      DimmerFrom(cfs, footprint, ps, raw, tree, m, k, cell);
      if k < i {
      } else if i < k {
      }
    }
  }

  lemma CellsNamed(ps: seq<Parameter>)
    ensures forall k :: 0 <= k < |CellsOf(ps)| ==> CellsOf(ps)[k].id != ""
  {
    CellsListed(ps, |ps|);
    forall k | 0 <= k < |CellsOf(ps)| ensures CellsOf(ps)[k].id != "" {
      assert CellsOf(ps)[k].id in CellIds(ps, |ps|);
    }
  }

  // ---------------------------------------------------------------- an RGBW fixture

  const RGBW: seq<string> := ["ColorAdd_R", "ColorAdd_G", "ColorAdd_B", "ColorAdd_W"]

  /** Red, green, blue and white on one geometry, and no dimmer. */
  function RgbwSlots(): (l: seq<Slot>)
    ensures |l| == 4
  {
    seq(4, i requires 0 <= i < 4 => Slot("Wash", RGBW[i]))
  }

  lemma OneGeometry(ps: seq<Parameter>, inst: string)
    requires forall i :: 0 <= i < |ps| ==> ps[i].instance == inst && ps[i].cell == ""
    ensures WithCells(ps) == ps
  {}

  lemma RgbwChannels(all: seq<Parameter>)
    requires |all| >= 4 && BeginsWith(ChannelsOf(RgbwSlots()), all)
    ensures forall i :: 0 <= i < 4 ==> InScopeOf(all, i, "") && all[i].offset == i + 1 && all[i].attribute == RGBW[i]
    ensures forall i :: 4 <= i < |all| ==> all[i].virtual
  {
    ChannelsAt(RgbwSlots());
    var ps := ChannelsOf(RgbwSlots());
    forall i | 0 <= i < 4 ensures InScopeOf(all, i, "") && all[i].offset == i + 1 && all[i].attribute == RGBW[i] {
      assert IsSlot(ps[i], i, RgbwSlots()[i]) && SameButInner(all[i], ps[i]);
    }
  }

  lemma RgbwLacks(all: seq<Parameter>)
    requires |all| >= 4 && (forall i :: 4 <= i < |all| ==> all[i].virtual)
    requires forall i :: 0 <= i < 4 ==> InScopeOf(all, i, "") && all[i].offset == i + 1 && all[i].attribute == RGBW[i]
    ensures LacksDimmer(all, "") && FourColours(all)
  {
    assert all[0].attribute == "ColorAdd_R" && all[1].attribute == "ColorAdd_G" && all[2].attribute == "ColorAdd_B" && all[3].attribute == "ColorAdd_W";
    assert InScopeOf(all, 0, "") && InScopeOf(all, 1, "") && InScopeOf(all, 2, "");
    RgbwNames();
    assert ColourAt(all, 0, "", 1) && ColourAt(all, 1, "", 2) && ColourAt(all, 2, "", 3) && ColourAt(all, 3, "", 4);
  }

  /** The colour channels of the fixture are those at offsets 1 to 4. */
  ghost predicate FourColours(all: seq<Parameter>)
  {
    forall o :: HasColour(all, "", o) <==> o in {1, 2, 3, 4}
  }

  lemma RgbwNames()
    ensures forall i :: 0 <= i < 4 ==> NamedColour(RGBW[i]) && RGBW[i] != "Dimmer"
  {
    forall i | 0 <= i < 4 ensures NamedColour(RGBW[i]) && RGBW[i] != "Dimmer" {
      assert RGBW[i][..9] == "ColorAdd_";
    }
  }

  /** Its virtual dimmer scales all four colours, white among them. */
  lemma WhiteIsDimmed(tree: Option<Tree>, m: Model) returns (i: nat)
    requires Derived(ChannelsOf(RgbwSlots()), [], tree, m)
    ensures IsScopeDimmer(m.parameters, i, "") && NoRepeat(m.parameters[i].virtualOf)
    ensures forall o :: o in m.parameters[i].virtualOf <==> o in {1, 2, 3, 4}
  {
    RgbwModelled(tree, m);
    hide *;
    VirtualScopes(MapOf(RgbwSlots()), 4, ChannelsOf(RgbwSlots()), [], tree, m, "");
    i :| IsScopeDimmer(m.parameters, i, "");
    VirtualColours(MapOf(RgbwSlots()), 4, ChannelsOf(RgbwSlots()), [], tree, m, i, "");
    ColoursFour(m.parameters, i);
  }

  lemma ColoursFour(all: seq<Parameter>, i: nat)
    requires i < |all| && FourColours(all) && forall o :: o in all[i].virtualOf <==> HasColour(all, "", o)
    ensures forall o :: o in all[i].virtualOf <==> o in {1, 2, 3, 4}
  {
    hide HasColour;
  }

  lemma RgbwModelled(tree: Option<Tree>, m: Model)
    requires Derived(ChannelsOf(RgbwSlots()), [], tree, m)
    ensures Modelled(MapOf(RgbwSlots()), 4, ChannelsOf(RgbwSlots()), [], tree, m) && LacksDimmer(m.parameters, "") && FourColours(m.parameters)
  {
    var ps := ChannelsOf(RgbwSlots());
    hide LacksDimmer, FourColours, RgbwSlots;
    LayoutShared(RgbwSlots());
    RgbwCells();
    ModelledParts(MapOf(RgbwSlots()), 4, ps, [], tree, m);
    RgbwChannels(m.parameters);
    RgbwLacks(m.parameters);
  }

  lemma RgbwCells()
    ensures WithCells(ChannelsOf(RgbwSlots())) == ChannelsOf(RgbwSlots()) && |ChannelsOf(RgbwSlots())| == 4
  {
    ChannelsAt(RgbwSlots());
    OneGeometry(ChannelsOf(RgbwSlots()), "Wash");
  }
}
