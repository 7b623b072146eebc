/** What the faders make of a fixture's parts: the type fader and the part faders share the fixture's
    intensity out between them, and the light of a part shows its fader's level once. */
module PartLevels {
  import opened Prelude
  import opened GeometryTree
  import opened ChannelMap
  import opened ParameterModel
  import opened FixtureModels
  import opened Dimming
  import opened SoftwareMaster
  import opened Faders
  import opened SyntheticOffsets

  // ---------------------------------------------------------------- a part at its fader's level

  /** The level of parameter i of entry's fixture, as the faders show it. */
  ghost function LevelOf(defs: seq<FaderDef>, claims: Claims, rig: Rig, entry: string, i: int): real
    requires entry in rig
  {
    var ps := rig[entry].model.parameters;
    if 0 <= i < |ps| then
      match Shown(defs, claims, rig, Channel(entry, ps[i].offset))
      case Some(l) => l
      case None => 0.0
    else 0.0
  }

  /** The levels of all parameters of entry's fixture. */
  ghost function Levels(defs: seq<FaderDef>, claims: Claims, rig: Rig, entry: string): int -> real
    requires entry in rig
  {
    i => LevelOf(defs, claims, rig, entry, i)
  }

  /** Fader n stands for part key of entry's fixture, is moved, and no other moved fader sets a channel of the part. */
  ghost predicate OnlyFader(defs: seq<FaderDef>, claims: Claims, rig: Rig, entry: string, key: string, n: nat)
    requires entry in rig
  {
    n < |defs| && defs[n].id in claims && Whole(entry) in defs[n].members && PartFor(defs[n], rig[entry].model) == Some(key) &&
    forall j, i :: 0 <= j < |defs| && j != n && defs[j].id in claims && 0 <= i < |rig[entry].model.parameters| &&
                   InPart(rig[entry].model.parameters[i], key) ==>
      !ClaimsChannel(defs[j], rig, Channel(entry, rig[entry].model.parameters[i].offset))
  }

  lemma DrivesOwn(d: FaderDef, rig: Rig, entry: string, key: string, i: nat)
    requires entry in rig && Whole(entry) in d.members && PartFor(d, rig[entry].model) == Some(key)
    requires OffsetsDistinct(rig[entry].model.parameters) && i < |rig[entry].model.parameters|
    requires InPart(rig[entry].model.parameters[i], key)
    ensures var p := rig[entry].model.parameters[i];
            (ClaimsChannel(d, rig, Channel(entry, p.offset)) <==> !p.inner) &&
            (HoldsChannel(d, rig, Channel(entry, p.offset)) <==> p.inner)
  {
    hide PartKey, PartFor;
    var ps := rig[entry].model.parameters;
    var n :| 0 <= n < |d.members| && d.members[n] == Whole(entry);
    assert d.members[n].entry == entry && ps[i].offset == ps[i].offset;
    assert Drives(d, rig[entry].model, d.members[n], ps[i]) <==> !ps[i].inner;
    assert Holds(d, rig[entry].model, ps[i]) <==> ps[i].inner;
    forall j | 0 <= j < |ps| && ps[j].offset == ps[i].offset ensures j == i {
      if i < j {
      } else if j < i {
      }
    }
  }

  /** While one fader of a part is the only one moved over its channels, the outermost take its level
      and the inner ones stay open. */
  lemma PartFaderSets(defs: seq<FaderDef>, claims: Claims, rig: Rig, entry: string, key: string, n: nat, i: nat)
    requires entry in rig && OnlyFader(defs, claims, rig, entry, key, n) && OffsetsDistinct(rig[entry].model.parameters)
    requires i < |rig[entry].model.parameters| && InPart(rig[entry].model.parameters[i], key)
    ensures var p := rig[entry].model.parameters[i];
            Shown(defs, claims, rig, Channel(entry, p.offset)) == Some(if p.inner then 1.0 else claims[defs[n].id].level)
  {
    var p := rig[entry].model.parameters[i];
    var k := Channel(entry, p.offset);
    DrivesOwn(defs[n], rig, entry, key, i);
    LatestIsLast(defs, claims, rig, k);
    hide ClaimsChannel, HoldsChannel, Latest, PartFor, PartKey, OffsetsDistinct;
    if p.inner {
      assert HeldOpen(defs, claims, rig, k);
    }
  }

  /** No double dimming, from the fader to the light: the only moved fader over a part of a built
      fixture dims the light on every path below one of the part's dimmer channels by its level, once,
      when no geometry carries two of them. */
  lemma PartShowsItsLevel(cfs: ChannelMap, footprint: uint16, ps: seq<Parameter>, raw: seq<uint16>, tree: Tree,
                          defs: seq<FaderDef>, claims: Claims, rig: Rig, entry: string, key: string, n: nat, path: seq<string>)
    requires entry in rig && SharedOut(cfs, footprint, ps, raw) && Derived(ps, raw, Some(tree), rig[entry].model) && OffsetsDistinct(rig[entry].model.parameters)
    requires OnlyFader(defs, claims, rig, entry, key, n)
    requires IsPath(tree, path) && |path| <= CLIMB_LIMIT
    requires exists i :: 0 <= i < |rig[entry].model.parameters| && Dims(rig[entry].model.parameters[i], key, path)
    ensures var all := rig[entry].model.parameters;
            Outermost(all, key, path) >= 1 &&
            Through(all, key, path, Levels(defs, claims, rig, entry)) == Power(claims[defs[n].id].level, Outermost(all, key, path)) &&
            (OnePerGeometry(all, key) ==> Through(all, key, path, Levels(defs, claims, rig, entry)) == claims[defs[n].id].level)
  {
    var m := rig[entry].model;
    var all, level, l := m.parameters, Levels(defs, claims, rig, entry), claims[defs[n].id].level;
    BuiltChannels(cfs, footprint, ps, raw);
    BuiltInnerMarked(ps, raw, Some(tree), m);
    BuiltPure(ps, raw, Some(tree), m);
    hide SharedOut, Derived, InnerMarked, PartsPure, OffsetsDistinct, OnlyFader, Shown, PartKey, IsPath;
    forall i | 0 <= i < |all| && Dims(all[i], key, path) ensures level(i) == if all[i].inner then 1.0 else l {
      PartFaderSets(defs, claims, rig, entry, key, n, i);
    }
    DimmedOnce(all, tree, key, path, level, l);
  }

  // ---------------------------------------------------------------- who sets what

  /** The fader of part key in a fixture of several parts. */
  predicate IsPartFader(d: FaderDef, key: string)
  {
    d.kind.PartFader? && d.part == key
  }

  /** The type fader of a fixture of several parts. */
  predicate IsTypeMaster(d: FaderDef)
  {
    d.kind.TypeFader? && d.hasParts
  }

  lemma DimmerHasPart(base: seq<Parameter>, cells: seq<Cell>, i: nat)
    requires i < |base| && IsDimmer(base[i])
    ensures exists j :: 0 <= j < |PartsOf(base, cells)| && PartsOf(base, cells)[j].key == PartKey(base[i].instance)
    ensures base[i].virtual ==> !IsMasterKey(base, cells, PartKey(base[i].instance))
  {
    KeysDistinct(base);
    hide PartKey;
    var key, ks := PartKey(base[i].instance), PartKeys(base);
    assert key in ks;
    var j :| 0 <= j < |ks| && ks[j] == key;
    assert PartsOf(base, cells)[j].key == key;
  }

  /** Where an intensity parameter of a built fixture belongs: to one part, and a virtual dimmer not to the master. */
  lemma PartOfDimmer(ps: seq<Parameter>, raw: seq<uint16>, tree: Option<Tree>, m: Model, i: nat) returns (j: nat)
    requires Derived(ps, raw, tree, m) && |m.parts| >= 2 && Unmarked(ps)
    requires i < |m.parameters| && IsDimmer(m.parameters[i]) && !m.parameters[i].master
    ensures j < |m.parts| && InPart(m.parameters[i], m.parts[j].key) && (m.parameters[i].virtual ==> !m.parts[j].master)
    ensures forall j' :: 0 <= j' < |m.parts| && m.parts[j'].key == m.parts[j].key ==> j' == j
  {
    PartsFacts(ps);
    PlanBehind(ps, raw, tree, m);
    var base, cells := Base(ps), CellsOf(ps);
    assert i < |base| && base[i].instance == m.parameters[i].instance && IsDimmer(base[i]) && base[i].virtual == m.parameters[i].virtual;
    DimmerHasPart(base, cells, i);
    hide PartKey, WithInner, IsGoverned, Base, CellsOf, IsMasterKey;
    j :| 0 <= j < |PartsOf(base, cells)| && PartsOf(base, cells)[j].key == PartKey(base[i].instance);
    assert m.parts[j].master == IsMasterKey(base, cells, m.parts[j].key);
  }

  /** p is part of the fixture's master level: the software master or a channel of the master part. */
  predicate OfMaster(m: Model, p: Parameter)
  {
    p.master || IsMasterChannel(m.parts, p)
  }

  /** The fader of part j, which is not the master, sets p or holds it open, and no other part's does either. */
  ghost predicate SetByPart(m: Model, entry: string, p: Parameter, j: nat)
  {
    j < |m.parts| && !m.parts[j].master &&
    forall d, j' :: 0 <= j' < |m.parts| && IsPartFader(d, m.parts[j'].key) ==>
      (Drives(d, m, Whole(entry), p) <==> j' == j && !p.inner) && (Holds(d, m, p) <==> j' == j && p.inner)
  }

  /** No fader of a part that is not the master sets p or holds it. */
  ghost predicate LeftByParts(m: Model, entry: string, p: Parameter)
  {
    forall d, j :: 0 <= j < |m.parts| && !m.parts[j].master && IsPartFader(d, m.parts[j].key) ==>
      !Drives(d, m, Whole(entry), p) && !Holds(d, m, p)
  }

  /** The faders of a fixture of several parts share its intensity out. The type fader sets the
      software master and the master part's channels and nothing else; every other dimmer is set, or
      held open where it is inner, by the fader of one part alone, which is not the master. */
  lemma FadersShareOut(ps: seq<Parameter>, raw: seq<uint16>, tree: Option<Tree>, m: Model, i: nat, t: FaderDef, entry: string)
    requires Derived(ps, raw, tree, m) && |m.parts| >= 2 && Unmarked(ps) && IsTypeMaster(t)
    requires i < |m.parameters| && IsDimmer(m.parameters[i])
    ensures (Drives(t, m, Whole(entry), m.parameters[i]) <==> OfMaster(m, m.parameters[i])) && !Holds(t, m, m.parameters[i])
    ensures OfMaster(m, m.parameters[i]) ==> LeftByParts(m, entry, m.parameters[i])
    ensures !OfMaster(m, m.parameters[i]) ==> exists j :: SetByPart(m, entry, m.parameters[i], j)
  {
    hide Derived, Unmarked, PartKey, SetByPart, LeftByParts, HasSoftwareMaster;
    var p := m.parameters[i];
    MasterExists(ps, raw, tree, m);
    if p.master {
      MasterIsApart(m, entry, p);
    } else {
      var j := PartOfDimmer(ps, raw, tree, m, i);
      PartFadersSet(m, entry, p, j);
    }
  }

  lemma MasterExists(ps: seq<Parameter>, raw: seq<uint16>, tree: Option<Tree>, m: Model)
    requires Derived(ps, raw, tree, m) && |m.parts| >= 2
    ensures HasSoftwareMaster(m)
  {
    PlanBehind(ps, raw, tree, m);
    hide Derived;
  }

  lemma MasterIsApart(m: Model, entry: string, p: Parameter)
    requires p.master
    ensures LeftByParts(m, entry, p)
  {
    hide PartKey;
  }

  lemma PartFadersSet(m: Model, entry: string, p: Parameter, j: nat)
    requires j < |m.parts| && InPart(p, m.parts[j].key) && (p.virtual ==> !m.parts[j].master)
    requires forall j' :: 0 <= j' < |m.parts| && m.parts[j'].key == m.parts[j].key ==> j' == j
    ensures m.parts[j].master ==> OfMaster(m, p) && LeftByParts(m, entry, p)
    ensures !m.parts[j].master ==> !OfMaster(m, p) && SetByPart(m, entry, p, j)
  {
    hide PartKey;
  }

  // ---------------------------------------------------------------- cells without a dimmer channel

  /** Scales colour channel o: one factor for every virtual dimmer that lists it. */
  ghost function ColourScale(ps: seq<Parameter>, o: uint16, level: int -> real): real
  {
    if ps == [] then 1.0
    else
      var n := |ps| - 1;
      ColourScale(ps[..n], o, level) * if IsDimmer(ps[n]) && ps[n].virtual && !ps[n].master && o in ps[n].virtualOf then level(n) else 1.0
  }

  /** At most one virtual dimmer scales any colour channel. */
  ghost predicate OneScaler(ps: seq<Parameter>)
  {
    forall i, j, o :: 0 <= i < j < |ps| && Scales(ps[i], o) ==> !Scales(ps[j], o)
  }

  predicate Scales(p: Parameter, o: uint16)
  {
    IsDimmer(p) && p.virtual && !p.master && o in p.virtualOf
  }

  lemma {:induction false} ScaleAlone(ps: seq<Parameter>, o: uint16, level: int -> real, i: nat)
    requires OneScaler(ps) && i < |ps|
    ensures Scales(ps[i], o) ==> ColourScale(ps, o, level) == level(i)
    ensures (forall j :: 0 <= j < |ps| ==> !Scales(ps[j], o)) ==> ColourScale(ps, o, level) == 1.0
  {
    var n := |ps| - 1;
    var qs := ps[..n];
    assert forall j :: 0 <= j < n ==> qs[j] == ps[j];
    if i < n {
      ScaleAlone(qs, o, level, i);
    } else if n > 0 {
      ScaleAlone(qs, o, level, 0);
      if Scales(ps[n], o) {
        forall j | 0 <= j < n ensures !Scales(qs[j], o) {
          assert !Scales(ps[j], o);
        }
      }
    }
  }

  lemma TargetsScale(ps: seq<Parameter>)
    requires TargetsApart(ps) && Unmarked(ps)
    ensures OneScaler(ps)
  {
    forall i, j, o | 0 <= i < j < |ps| && Scales(ps[i], o) ensures !Scales(ps[j], o) {
      assert o in TargetsOf(ps[i]);
    }
  }

  lemma BuiltScalers(cfs: ChannelMap, footprint: uint16, ps: seq<Parameter>, raw: seq<uint16>, tree: Option<Tree>, m: Model)
    requires SharedOut(cfs, footprint, ps, raw) && Derived(ps, raw, tree, m)
    ensures OneScaler(m.parameters)
  {
    BuiltChannels(cfs, footprint, ps, raw);
    BaseFacts(ps);
    TargetsScale(Base(ps));
    var base := Base(ps);
    hide SharedOut, WithCells, CellsOf, WithVirtuals, MasterTargets, PartsOf, WithGoverned, IsInner;
    forall i, j, o | 0 <= i < j < |m.parameters| && Scales(m.parameters[i], o) ensures !Scales(m.parameters[j], o) {
      assert Scales(base[i], o);
    }
  }

  /** The colours of a cell without a dimmer channel are dimmed by the part's level exactly when its
      virtual dimmer is not inner (or the level is full): no outer dimmer reaches an inner one's
      colours, and the part's fader holds the inner one open. */
  lemma VirtualCellDimmed(cfs: ChannelMap, footprint: uint16, ps: seq<Parameter>, raw: seq<uint16>, tree: Tree,
                          defs: seq<FaderDef>, claims: Claims, rig: Rig, entry: string, key: string, n: nat, i: nat, o: uint16)
    requires entry in rig && SharedOut(cfs, footprint, ps, raw) && Derived(ps, raw, Some(tree), rig[entry].model) && OffsetsDistinct(rig[entry].model.parameters)
    requires OnlyFader(defs, claims, rig, entry, key, n)
    requires i < |rig[entry].model.parameters| && InPart(rig[entry].model.parameters[i], key) && Scales(rig[entry].model.parameters[i], o)
    ensures var all, l := rig[entry].model.parameters, claims[defs[n].id].level;
            var scale := ColourScale(all, o, Levels(defs, claims, rig, entry));
            scale == (if all[i].inner then 1.0 else l) &&
            (scale == l <==> l == 1.0 || !StrictlyUnder(tree, all[i].instance, Holders(all, key)) || all[i].instance == "")
  {
    var m := rig[entry].model;
    var level := Levels(defs, claims, rig, entry);
    BuiltChannels(cfs, footprint, ps, raw);
    BuiltInnerMarked(ps, raw, Some(tree), m);
    BuiltScalers(cfs, footprint, ps, raw, Some(tree), m);
    hide SharedOut, Derived, OneScaler, OffsetsDistinct, OnlyFader, Shown, PartKey, Holders, StrictlyUnder;
    PartFaderSets(defs, claims, rig, entry, key, n, i);
    ScaleAlone(m.parameters, o, level, i);
    assert level(i) == if m.parameters[i].inner then 1.0 else claims[defs[n].id].level;
    assert m.parameters[i].inner <==> IsInner(m.parameters, Some(tree), m.parameters[i]);
  }
}
