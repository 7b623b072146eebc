/** The fixture's master over its parts: how often it dims the light of a part, whether the part's dimmers
    are channels or virtual, and what the type fader and a part's fader make of that light together. */
module MasterLevels {
  import opened Prelude
  import opened GeometryTree
  import opened ChannelMap
  import opened ParameterModel
  import opened FixtureModels
  import opened Dimming
  import opened SoftwareMaster
  import opened Faders
  import opened SyntheticOffsets
  import opened PartLevels

  /** m is the finished model, of several parts, of a channel map and a tree. */
  ghost predicate Finished(cfs: ChannelMap, footprint: uint16, ps: seq<Parameter>, raw: seq<uint16>, tree: Tree, m: Model)
  {
    SharedOut(cfs, footprint, ps, raw) && Derived(ps, raw, Some(tree), m) && |m.parts| >= 2 && |m.parameters| > 0
  }

  lemma FinishedWell(cfs: ChannelMap, footprint: uint16, ps: seq<Parameter>, raw: seq<uint16>, tree: Tree, m: Model)
    requires Finished(cfs, footprint, ps, raw, tree, m)
    ensures WellModelled(m, Some(tree)) && m.parameters[|m.parameters| - 1].master && IsDimmer(m.parameters[|m.parameters| - 1])
    ensures NoRepeat(SoftwareTargets(m)) && InnerMarked(m.parameters, Some(tree))
  {
    BuiltChannels(cfs, footprint, ps, raw);
    BuiltWell(ps, raw, Some(tree), m);
    SoftwareMasterTargets(ps, raw, Some(tree), m);
    BuiltInnerMarked(ps, raw, Some(tree), m);
    PlanBehind(ps, raw, Some(tree), m);
    hide *;
  }

  // ---------------------------------------------------------------- what the software master reaches

  /** The channels that carry the light p dims: its own, or the colours a virtual dimmer scales. */
  function Reach(p: Parameter): seq<uint16>
  {
    if p.virtual then p.virtualOf else [p.offset]
  }

  /** No two intensity parameters but the software master reach the same channel. */
  ghost predicate ReachApart(ps: seq<Parameter>)
  {
    forall i, j, o :: 0 <= i < |ps| && 0 <= j < |ps| && IsDimmer(ps[i]) && IsDimmer(ps[j]) && o in Reach(ps[i]) && o in Reach(ps[j]) ==> i == j
  }

  lemma FinishedApart(cfs: ChannelMap, footprint: uint16, ps: seq<Parameter>, raw: seq<uint16>, tree: Tree, m: Model)
    requires Finished(cfs, footprint, ps, raw, tree, m)
    ensures |m.parameters| > 0 && ReachApart(WithoutMaster(m))
  {
    BuiltChannels(cfs, footprint, ps, raw);
    BaseFacts(ps);
    PlanBehind(ps, raw, Some(tree), m);
    var base, all := Base(ps), WithoutMaster(m);
    hide SharedOut, Derived, Base, WithGoverned, IsInner, MasterTargets;
    forall i, j, o | 0 <= i < |all| && 0 <= j < |all| && IsDimmer(all[i]) && IsDimmer(all[j]) && o in Reach(all[i]) && o in Reach(all[j]) ensures i == j {
      assert o in TargetsOf(base[i]) && o in TargetsOf(base[j]);
      if i < j {
      } else if j < i {
      }
    }
  }

  /** How often the software master multiplies channel o. */
  function TimesListed(m: Model, o: uint16): nat
    requires |m.parameters| > 0
  {
    multiset(SoftwareTargets(m))[o]
  }

  lemma {:induction false} ListedOnce(s: seq<uint16>, o: uint16)
    requires NoRepeat(s)
    ensures multiset(s)[o] == if o in s then 1 else 0
  {
    if s != [] {
      var init, last := s[..|s| - 1], s[|s| - 1];
      assert s == init + [last];
      assert forall i :: 0 <= i < |init| ==> init[i] == s[i];
      ListedOnce(init, o);
      assert forall i :: 0 <= i < |init| ==> init[i] != last;
    }
  }

  /** The software master multiplies what an intensity parameter dims once, exactly when the parameter's
      part is not governed and the parameter is not inner; otherwise it leaves it alone. */
  lemma ReachListed(cfs: ChannelMap, footprint: uint16, ps: seq<Parameter>, raw: seq<uint16>, tree: Tree, m: Model, i: nat, j: nat, o: uint16)
    requires Finished(cfs, footprint, ps, raw, tree, m)
    requires i < |m.parameters| && j < |m.parts| && InPart(m.parameters[i], m.parts[j].key) && o in Reach(m.parameters[i])
    ensures TimesListed(m, o) == if m.parts[j].governed || m.parameters[i].inner then 0 else 1
    ensures m.parameters[i].inner <==>
              m.parameters[i].instance != "" && StrictlyUnder(tree, m.parameters[i].instance, Holders(m.parameters, m.parts[j].key))
  {
    FinishedWell(cfs, footprint, ps, raw, tree, m);
    FinishedApart(cfs, footprint, ps, raw, tree, m);
    ListedOnce(SoftwareTargets(m), o);
    assert m.parameters[i].inner <==> IsInner(m.parameters, Some(tree), m.parameters[i]);
    hide *;
    ListedWhen(tree, m, i, j, o);
  }

  lemma ListedWhen(tree: Tree, m: Model, i: nat, j: nat, o: uint16)
    requires WellModelled(m, Some(tree)) && ReachApart(WithoutMaster(m)) && m.parameters[|m.parameters| - 1].master
    requires i < |m.parameters| && j < |m.parts| && InPart(m.parameters[i], m.parts[j].key) && o in Reach(m.parameters[i])
    ensures o in SoftwareTargets(m) <==> !m.parts[j].governed && !m.parameters[i].inner
  {
    hide PartKey, GovernedRight, InnerMarked, PartsPure, OwnTargets;
    var all := WithoutMaster(m);
    assert i < |all| && all[i] == m.parameters[i];
    if o in SoftwareTargets(m) {
      var k :| 0 <= k < |all| && ShouldMultiply(m, k, o);
      assert all[k] == m.parameters[k] && o in Reach(all[k]);
    } else {
      assert !ShouldMultiply(m, i, o);
    }
  }

  // ---------------------------------------------------------------- how often the light meets the master

  /** The light on path passes under master channel i. */
  predicate Meets(ps: seq<Parameter>, parts: seq<Part>, path: seq<string>, i: int)
  {
    0 <= i < |ps| && IsMasterChannel(parts, ps[i]) && ps[i].instance in path
  }

  ghost predicate MeetsNone(ps: seq<Parameter>, parts: seq<Part>, path: seq<string>)
  {
    forall i :: !Meets(ps, parts, path, i)
  }

  ghost predicate MeetsOne(ps: seq<Parameter>, parts: seq<Part>, path: seq<string>)
  {
    exists i :: OnlyMeets(ps, parts, path, i)
  }

  ghost predicate OnlyMeets(ps: seq<Parameter>, parts: seq<Part>, path: seq<string>, i: int)
  {
    Meets(ps, parts, path, i) && forall k :: Meets(ps, parts, path, k) ==> k == i
  }

  lemma {:induction false} PassesCounted(ps: seq<Parameter>, parts: seq<Part>, path: seq<string>)
    ensures MasterPasses(ps, parts, path) == 0 <==> MeetsNone(ps, parts, path)
    ensures MasterPasses(ps, parts, path) == 1 <==> MeetsOne(ps, parts, path)
  {
    hide IsMasterChannel;
    if ps != [] {
      var n := |ps| - 1;
      var qs := ps[..n];
      PassesCounted(qs, parts, path);
      forall i ensures Meets(ps, parts, path, i) <==> Meets(qs, parts, path, i) || (i == n && Meets(ps, parts, path, n)) {
        assert 0 <= i < n ==> qs[i] == ps[i];
      }
      hide Meets;
      assert MasterPasses(ps, parts, path) == MasterPasses(qs, parts, path) + if Meets(ps, parts, path, n) then 1 else 0 by {
        MeetsLast(ps, parts, path);
      }
      OneMoreMeets(ps, qs, parts, path, n);
    } else {
      assert MeetsNone(ps, parts, path);
    }
  }

  lemma MeetsLast(ps: seq<Parameter>, parts: seq<Part>, path: seq<string>)
    requires ps != []
    ensures MasterPasses(ps, parts, path) == MasterPasses(ps[..|ps| - 1], parts, path) + if Meets(ps, parts, path, |ps| - 1) then 1 else 0
  {}

  lemma OneMoreMeets(ps: seq<Parameter>, qs: seq<Parameter>, parts: seq<Part>, path: seq<string>, n: int)
    requires !Meets(qs, parts, path, n)
    requires forall i :: Meets(ps, parts, path, i) <==> Meets(qs, parts, path, i) || (i == n && Meets(ps, parts, path, n))
    ensures MeetsNone(ps, parts, path) <==> MeetsNone(qs, parts, path) && !Meets(ps, parts, path, n)
    ensures MeetsOne(ps, parts, path) <==>
              if Meets(ps, parts, path, n) then MeetsNone(qs, parts, path) else MeetsOne(qs, parts, path)
  {
    hide Meets;
    if i :| OnlyMeets(ps, parts, path, i) {
      if i != n {
        assert OnlyMeets(qs, parts, path, i);
      }
    }
    if Meets(ps, parts, path, n) {
      if MeetsNone(qs, parts, path) {
        assert OnlyMeets(ps, parts, path, n);
      }
    } else if i :| OnlyMeets(qs, parts, path, i) {
      assert OnlyMeets(ps, parts, path, i);
    }
  }

  /** Light under a dimmer channel. It passes the master once for each master channel above it and once
      more for every outermost dimmer of an ungoverned part. With one dimmer of the part per geometry,
      that is once altogether exactly when the path meets one master channel, for a governed part, or
      none, for another. No such light escapes the master. */
  lemma MasterDimsOnce(cfs: ChannelMap, footprint: uint16, ps: seq<Parameter>, raw: seq<uint16>, tree: Tree, m: Model, j: nat, path: seq<string>)
    requires Finished(cfs, footprint, ps, raw, tree, m) && j < |m.parts| && !m.parts[j].master
    requires IsPath(tree, path) && |path| <= CLIMB_LIMIT
    requires exists i :: 0 <= i < |WithoutMaster(m)| && Dims(WithoutMaster(m)[i], m.parts[j].key, path)
    ensures var all, key := WithoutMaster(m), m.parts[j].key;
            var hard, soft := MasterPasses(all, m.parts, path), SoftwarePasses(all, key, path, SoftwareTargets(m));
            hard + soft >= 1 && soft == (if m.parts[j].governed then 0 else Outermost(all, key, path)) &&
            (OnePerGeometry(all, key) ==>
              (hard + soft == 1 <==> if m.parts[j].governed then MeetsOne(all, m.parts, path) else MeetsNone(all, m.parts, path)))
  {
    FinishedWell(cfs, footprint, ps, raw, tree, m);
    hide *;
    PassesOfPart(tree, m, j, path);
    PassesCounted(WithoutMaster(m), m.parts, path);
  }

  /** Light of a colour channel o that virtual dimmer i scales. It passes the master once for each master
      channel above its geometry, and once more in software when the part is not governed and the virtual
      dimmer is not inner. It escapes the master exactly when the virtual dimmer is inner, its part is not
      governed and no master channel is above. */
  lemma MasterDimsColour(cfs: ChannelMap, footprint: uint16, ps: seq<Parameter>, raw: seq<uint16>, tree: Tree, m: Model, i: nat, j: nat,
                         o: uint16, path: seq<string>)
    requires Finished(cfs, footprint, ps, raw, tree, m) && i < |m.parameters| && j < |m.parts| && !m.parts[j].master
    requires InPart(m.parameters[i], m.parts[j].key) && Scales(m.parameters[i], o)
    requires IsPath(tree, path) && |path| <= CLIMB_LIMIT && (m.parameters[i].instance == "" || m.parameters[i].instance in path)
    ensures var all, p := WithoutMaster(m), m.parameters[i];
            var times := MasterPasses(all, m.parts, path) + TimesListed(m, o);
            var alone := m.parts[j].governed || p.inner;
            (times == 1 <==> if alone then MeetsOne(all, m.parts, path) else MeetsNone(all, m.parts, path)) &&
            (times == 0 <==> !m.parts[j].governed && p.inner && MeetsNone(all, m.parts, path))
  {
    ReachListed(cfs, footprint, ps, raw, tree, m, i, j, o);
    FinishedWell(cfs, footprint, ps, raw, tree, m);
    hide Finished, TimesListed, MeetsOne, MeetsNone;
    PassesCounted(WithoutMaster(m), m.parts, path);
    if m.parts[j].governed {
      GovernedMeets(tree, m, i, j, path);
    }
  }

  lemma GovernedMeets(tree: Tree, m: Model, i: nat, j: nat, path: seq<string>)
    requires WellModelled(m, Some(tree)) && m.parameters[|m.parameters| - 1].master && i < |m.parameters| && j < |m.parts|
    requires InPart(m.parameters[i], m.parts[j].key) && m.parts[j].governed && !m.parts[j].master
    requires IsPath(tree, path) && |path| <= CLIMB_LIMIT && (m.parameters[i].instance == "" || m.parameters[i].instance in path)
    ensures MasterPasses(WithoutMaster(m), m.parts, path) >= 1
  {
    var all := WithoutMaster(m);
    assert i < |all| && all[i] == m.parameters[i];
    assert GovernedRight(m, Some(tree), j);
    UnderNamed(all, m.parts, tree, all[i].instance);
    var k :| 0 <= k < |path| && path[k] == all[i].instance;
    GovernedPasses(all, m.parts, tree, path, k);
  }

  lemma UnderNamed(ps: seq<Parameter>, parts: seq<Part>, tree: Tree, inst: string)
    requires UnderMaster(ps, parts, Some(tree), inst)
    ensures inst != ""
  {
    hide IsMasterChannel;
  }

  // ---------------------------------------------------------------- parts wholly under or wholly outside

  /** No geometry carries two master channels, and no master channel's geometry is under another's. */
  ghost predicate Unnested(tree: Tree, ps: seq<Parameter>, parts: seq<Part>)
  {
    (forall i, k :: 0 <= i < k < |ps| && IsMasterChannel(parts, ps[i]) && IsMasterChannel(parts, ps[k]) ==> ps[i].instance != ps[k].instance) &&
    forall g :: g in MasterGeometries(ps, parts) ==> !StrictlyUnder(tree, g, MasterGeometries(ps, parts))
  }

  /** No dimmer of the part is at or under a master channel's geometry, and none of those is under a dimmer of the part. */
  ghost predicate WhollyOutside(tree: Tree, ps: seq<Parameter>, parts: seq<Part>, key: string)
  {
    (forall i :: 0 <= i < |ps| && InPart(ps[i], key) ==> !AtOrUnder(tree, ps[i].instance, MasterGeometries(ps, parts))) &&
    forall g :: g in MasterGeometries(ps, parts) ==> !StrictlyUnder(tree, g, Holders(ps, key))
  }

  /** Where a path comes by a geometry, it is at or under what lies further up, and only there. */
  lemma UnderOnPath(tree: Tree, path: seq<string>, k: nat, holders: set<string>)
    requires IsPath(tree, path) && |path| <= CLIMB_LIMIT && k < |path|
    ensures AtOrUnder(tree, path[k], holders) <==> exists l :: k <= l < |path| && path[l] in holders
    ensures StrictlyUnder(tree, path[k], holders) <==> exists l :: k < l < |path| && path[l] in holders
  {
    PathSuffix(tree, path, k);
    var up := path[k..];
    ClimbsSeePath(tree, up, holders);
    assert forall l :: 0 <= l < |up| ==> up[l] == path[k + l];
    hide *;
    if l :| k <= l < |path| && path[l] in holders {
      assert up[l - k] in holders;
    }
    if l :| k < l < |path| && path[l] in holders {
      assert up[l - k] in holders;
    }
  }

  /** Master channels that are not nested meet the light under one of them once. */
  lemma UnnestedMeets(tree: Tree, ps: seq<Parameter>, parts: seq<Part>, path: seq<string>, k: nat)
    requires IsPath(tree, path) && |path| <= CLIMB_LIMIT && k < |path|
    requires Unnested(tree, ps, parts) && UnderMaster(ps, parts, Some(tree), path[k])
    ensures MeetsOne(ps, parts, path)
  {
    var g := MasterGeometries(ps, parts);
    UnderOnPath(tree, path, k, g);
    hide IsMasterChannel, IsPath, AtOrUnder, StrictlyUnder;
    var l :| k <= l < |path| && path[l] in g;
    var i :| 0 <= i < |ps| && IsMasterChannel(parts, ps[i]) && ps[i].instance == path[l];
    assert Meets(ps, parts, path, i);
    forall n | Meets(ps, parts, path, n) ensures n == i {
      var l' :| 0 <= l' < |path| && path[l'] == ps[n].instance;
      assert path[l'] in g;
      UnderOnPath(tree, path, l, g);
      UnderOnPath(tree, path, l', g);
      assert l == l';
      if i < n {
      } else if n < i {
      }
    }
    assert OnlyMeets(ps, parts, path, i);
  }

  /** No master channel is on a path through a dimmer of a part that lies wholly outside. */
  lemma OutsideMeets(tree: Tree, ps: seq<Parameter>, parts: seq<Part>, key: string, path: seq<string>, i: nat)
    requires IsPath(tree, path) && |path| <= CLIMB_LIMIT && i < |ps| && InPart(ps[i], key) && ps[i].instance in path
    requires WhollyOutside(tree, ps, parts, key)
    ensures MeetsNone(ps, parts, path)
  {
    PathNonEmpty(tree, path);
    var k :| 0 <= k < |path| && path[k] == ps[i].instance;
    var g := MasterGeometries(ps, parts);
    hide IsMasterChannel, IsPath, AtOrUnder, StrictlyUnder, PartKey;
    assert path[k] in Holders(ps, key);
    UnderOnPath(tree, path, k, g);
    forall n ensures !Meets(ps, parts, path, n) {
      if Meets(ps, parts, path, n) {
        var l :| 0 <= l < |path| && path[l] == ps[n].instance;
        assert path[l] in g;
        UnderOnPath(tree, path, l, Holders(ps, key));
      }
    }
  }

  /** A part wholly under the master's geometry, where master channels are not nested, or wholly outside
      it has its light multiplied by the master exactly once: as MasterDimsOnce and MasterDimsColour say,
      for every dimmer channel with one to a geometry and every virtual dimmer that is not inner. */
  lemma WholePartsMeet(cfs: ChannelMap, footprint: uint16, ps: seq<Parameter>, raw: seq<uint16>, tree: Tree, m: Model, i: nat, j: nat,
                       path: seq<string>)
    requires Finished(cfs, footprint, ps, raw, tree, m) && i < |WithoutMaster(m)| && j < |m.parts| && !m.parts[j].master
    requires InPart(WithoutMaster(m)[i], m.parts[j].key) && WithoutMaster(m)[i].instance in path
    requires IsPath(tree, path) && |path| <= CLIMB_LIMIT
    ensures var all, key := WithoutMaster(m), m.parts[j].key;
            (m.parts[j].governed <==> forall k :: 0 <= k < |all| && InPart(all[k], key) ==> UnderMaster(all, m.parts, Some(tree), all[k].instance)) &&
            (m.parts[j].governed && Unnested(tree, all, m.parts) ==> MeetsOne(all, m.parts, path)) &&
            (WhollyOutside(tree, all, m.parts, key) ==> !m.parts[j].governed && MeetsNone(all, m.parts, path))
  {
    FinishedWell(cfs, footprint, ps, raw, tree, m);
    assert GovernedRight(m, Some(tree), j);
    var all, key := WithoutMaster(m), m.parts[j].key;
    hide Finished, WellModelled, PartKey, IsMasterChannel, AtOrUnder, StrictlyUnder, IsPath, Meets;
    var k :| 0 <= k < |path| && path[k] == all[i].instance;
    if m.parts[j].governed && Unnested(tree, all, m.parts) {
      UnnestedMeets(tree, all, m.parts, path, k);
    }
    if WhollyOutside(tree, all, m.parts, key) {
      OutsideMeets(tree, all, m.parts, key, path, i);
    }
  }

  // ---------------------------------------------------------------- master times part

  /** The share of the light on path that the master channels let through. */
  ghost function MasterThrough(ps: seq<Parameter>, parts: seq<Part>, path: seq<string>, level: int -> real): real
  {
    if ps == [] then 1.0
    else
      var n := |ps| - 1;
      Product(MasterThrough(ps[..n], parts, path, level), if Meets(ps, parts, path, n) then level(n) else 1.0)
  }

  lemma {:induction false} MasterPower(ps: seq<Parameter>, parts: seq<Part>, path: seq<string>, level: int -> real, l: real)
    requires forall i :: Meets(ps, parts, path, i) ==> level(i) == l
    ensures MasterThrough(ps, parts, path, level) == Power(l, MasterPasses(ps, parts, path))
  {
    hide IsMasterChannel;
    if ps != [] {
      var n := |ps| - 1;
      var qs := ps[..n];
      forall i | Meets(qs, parts, path, i) ensures level(i) == l {
        assert qs[i] == ps[i] && Meets(ps, parts, path, i);
      }
      MasterPower(qs, parts, path, level, l);
      MeetsLast(ps, parts, path);
    }
  }

  lemma {:induction false} PowerSum(x: real, a: nat, b: nat)
    ensures Power(x, a) * Power(x, b) == Power(x, a + b)
  {
    if a > 0 {
      PowerSum(x, a - 1, b);
      assert Power(x, a) * Power(x, b) == x * (Power(x, a - 1) * Power(x, b));
    }
  }

  /** A level between dark and full is its own power only once. */
  lemma {:induction false} PowerOnce(x: real, n: nat)
    requires 0.0 < x < 1.0
    ensures Power(x, n) > 0.0 && (n >= 2 ==> Power(x, n) < x) && (Power(x, n) == x <==> n == 1)
  {
    if n == 0 {
      PowerZero(x);
    } else if n == 1 {
      PowerOne(x);
    } else {
      PowerOnce(x, n - 1);
      Shrinks(x, n);
    }
  }

  lemma PowerZero(x: real)
    ensures Power(x, 0) == 1.0
  {}

  lemma Shrinks(x: real, n: nat)
    requires n > 0 && 0.0 < x < 1.0 && 0.0 < Power(x, n - 1) < 1.0
    ensures 0.0 < Power(x, n) < x
  {
    SmallerProduct(x, Power(x, n - 1));
  }

  lemma SmallerProduct(x: real, y: real)
    requires 0.0 < x < 1.0 && 0.0 < y < 1.0
    ensures 0.0 < x * y < x
  {
    assert x * (1.0 - y) > 0.0;
    assert x * y > 0.0;
    assert x * (1.0 - y) == x - x * y;
  }

  /** Fader t is the type fader of a fixture of several parts, is moved, and no other moved fader sets a
      channel of the fixture's master level. */
  ghost predicate OnlyMaster(defs: seq<FaderDef>, claims: Claims, rig: Rig, entry: string, t: nat)
    requires entry in rig
  {
    t < |defs| && defs[t].id in claims && Whole(entry) in defs[t].members && IsTypeMaster(defs[t]) &&
    forall d, i :: 0 <= d < |defs| && d != t && defs[d].id in claims && 0 <= i < |rig[entry].model.parameters| &&
                   IsDimmer(rig[entry].model.parameters[i]) && OfMaster(rig[entry].model, rig[entry].model.parameters[i]) ==>
      !ClaimsChannel(defs[d], rig, Channel(entry, rig[entry].model.parameters[i].offset))
  }

  /** The fixture's master level is the type fader's, on the master channels and on the software master. */
  lemma MasterShows(defs: seq<FaderDef>, claims: Claims, rig: Rig, entry: string, t: nat, i: nat)
    requires entry in rig && OnlyMaster(defs, claims, rig, entry, t) && i < |rig[entry].model.parameters|
    requires IsDimmer(rig[entry].model.parameters[i]) && OfMaster(rig[entry].model, rig[entry].model.parameters[i])
    ensures LevelOf(defs, claims, rig, entry, i) == claims[defs[t].id].level
  {
    var p := rig[entry].model.parameters[i];
    var k := Channel(entry, p.offset);
    var n :| 0 <= n < |defs[t].members| && defs[t].members[n] == Whole(entry);
    hide PartKey, IsMasterChannel, HasSoftwareMaster;
    assert defs[t].members[n].entry == entry && Drives(defs[t], rig[entry].model, defs[t].members[n], p);
    assert ClaimsChannel(defs[t], rig, k);
    LatestIsLast(defs, claims, rig, k);
    hide ClaimsChannel, HoldsChannel, Latest, OfMaster;
  }

  /** The light meets the master once: one master channel where the part, or a virtual dimmer for being
      inner, is left to those, and none where the software master multiplies it. */
  ghost predicate MeetsOnce(m: Model, path: seq<string>, alone: bool)
    requires |m.parameters| > 0
  {
    if alone then MeetsOne(WithoutMaster(m), m.parts, path) else MeetsNone(WithoutMaster(m), m.parts, path)
  }

  /** Everything on the fixture's master is at the type fader's level. */
  lemma MasterLevels(cfs: ChannelMap, footprint: uint16, ps: seq<Parameter>, raw: seq<uint16>, tree: Tree, defs: seq<FaderDef>, claims: Claims,
                     rig: Rig, entry: string, t: nat, path: seq<string>)
    requires entry in rig && Finished(cfs, footprint, ps, raw, tree, rig[entry].model) && OnlyMaster(defs, claims, rig, entry, t)
    ensures var m, big, level := rig[entry].model, claims[defs[t].id].level, Levels(defs, claims, rig, entry);
            level(|m.parameters| - 1) == big &&
            MasterThrough(WithoutMaster(m), m.parts, path, level) == Power(big, MasterPasses(WithoutMaster(m), m.parts, path))
  {
    var m, level := rig[entry].model, Levels(defs, claims, rig, entry);
    var all := WithoutMaster(m);
    FinishedWell(cfs, footprint, ps, raw, tree, m);
    hide Finished, WellModelled, OnlyMaster, LevelOf, MasterHas;
    MasterShows(defs, claims, rig, entry, t, |m.parameters| - 1);
    forall i | Meets(all, m.parts, path, i) ensures level(i) == claims[defs[t].id].level {
      assert all[i] == m.parameters[i];
      MasterShows(defs, claims, rig, entry, t, i);
    }
    MasterPower(all, m.parts, path, level, claims[defs[t].id].level);
  }

  /** A part's dimmer channels are at its fader's level, the inner ones full. */
  lemma PartLevelled(cfs: ChannelMap, footprint: uint16, ps: seq<Parameter>, raw: seq<uint16>, tree: Tree, defs: seq<FaderDef>, claims: Claims,
                     rig: Rig, entry: string, key: string, n: nat, path: seq<string>)
    requires entry in rig && Finished(cfs, footprint, ps, raw, tree, rig[entry].model) && OffsetsDistinct(rig[entry].model.parameters)
    requires OnlyFader(defs, claims, rig, entry, key, n)
    ensures var m, l, level := rig[entry].model, claims[defs[n].id].level, Levels(defs, claims, rig, entry);
            Through(WithoutMaster(m), key, path, level) == Power(l, Outermost(WithoutMaster(m), key, path))
  {
    var m, l, level := rig[entry].model, claims[defs[n].id].level, Levels(defs, claims, rig, entry);
    var all := WithoutMaster(m);
    hide Finished, OnlyFader;
    forall i | 0 <= i < |all| && Dims(all[i], key, path) ensures level(i) == if all[i].inner then 1.0 else l {
      assert all[i] == m.parameters[i];
      PartFaderSets(defs, claims, rig, entry, key, n, i);
    }
    ThroughPower(all, key, path, level, l);
  }

  // ---------------------------------------------------------------- what is left of the light

  /** What light has after passing hard master channels, outer dimmers of the part and soft turns of the
      software master. */
  ghost predicate Passed(light: real, big: real, l: real, hard: nat, outer: nat, soft: nat)
  {
    light == Product(Power(big, hard), Product(Power(l, outer), Power(big, soft)))
  }

  /** light is M, as often as it meets the master, times L, for every outermost dimmer. */
  ghost predicate Dimmed(light: real, big: real, l: real, times: nat, outer: nat)
  {
    light == Product(Power(big, times), Power(l, outer))
  }

  /** light is M times L if it meets the master once, and, M being between dark and full and L not dark,
      only then. */
  ghost predicate TimesPart(light: real, big: real, l: real, once: bool)
  {
    (once ==> light == big * l) && (0.0 < big < 1.0 && l != 0.0 ==> (light == big * l <==> once))
  }

  lemma PassedDims(light: real, big: real, l: real, hard: nat, outer: nat, soft: nat)
    requires Passed(light, big, l, hard, outer, soft)
    ensures Dimmed(light, big, l, hard + soft, outer)
  {
    hide Power;
    Joined(Power(big, hard), Power(big, soft), Power(l, outer));
    PowerSum(big, hard, soft);
  }

  lemma DimmedTimes(light: real, big: real, l: real, times: nat, once: bool)
    requires Dimmed(light, big, l, times, 1) && (times == 1 <==> once)
    ensures TimesPart(light, big, l, once)
  {
    hide Power;
    PowerOne(big);
    PowerOne(l);
    if 0.0 < big < 1.0 && l != 0.0 {
      PowerOnce(big, times);
      Cancelled(Power(big, times), big, l);
    }
  }

  lemma Joined(a: real, b: real, c: real)
    ensures Product(a, Product(c, b)) == Product(a * b, c)
  {
    assert a * (c * b) == a * (b * c) == (a * b) * c;
  }

  lemma Cancelled(x: real, y: real, l: real)
    requires l != 0.0
    ensures x * l == y * l <==> x == y
  {
    assert (x - y) * l == x * l - y * l;
  }

  /** What the master channels, the part's dimmers and the software master leave of the light on path. */
  ghost function PartLight(m: Model, key: string, path: seq<string>, level: int -> real): real
    requires |m.parameters| > 0
  {
    Product(MasterThrough(WithoutMaster(m), m.parts, path, level),
            ScaledThrough(WithoutMaster(m), key, path, level, SoftwareTargets(m), level(|m.parameters| - 1)))
  }

  /** The same of the light in colour channel o: it is scaled by the virtual dimmers that have the channel. */
  ghost function ColourLight(m: Model, o: uint16, path: seq<string>, level: int -> real): real
    requires |m.parameters| > 0
  {
    Product(MasterThrough(WithoutMaster(m), m.parts, path, level),
            Product(ColourScale(m.parameters, o, level), Power(level(|m.parameters| - 1), TimesListed(m, o))))
  }

  /** How often light under dimmer channels of the part meets the master. */
  ghost function TimesUnder(m: Model, key: string, path: seq<string>): nat
    requires |m.parameters| > 0
  {
    MasterPasses(WithoutMaster(m), m.parts, path) + SoftwarePasses(WithoutMaster(m), key, path, SoftwareTargets(m))
  }

  /** How often light in colour channel o meets the master. */
  ghost function TimesOver(m: Model, o: uint16, path: seq<string>): nat
    requires |m.parameters| > 0
  {
    MasterPasses(WithoutMaster(m), m.parts, path) + TimesListed(m, o)
  }

  /** How many virtual dimmers dim the colours of one by their level: none where it is inner. */
  function Dimmers(inner: bool): nat
  {
    if inner then 0 else 1
  }

  lemma PartIs(m: Model, key: string, path: seq<string>, level: int -> real, big: real, l: real)
    requires |m.parameters| > 0 && level(|m.parameters| - 1) == big
    requires MasterThrough(WithoutMaster(m), m.parts, path, level) == Power(big, MasterPasses(WithoutMaster(m), m.parts, path))
    requires Through(WithoutMaster(m), key, path, level) == Power(l, Outermost(WithoutMaster(m), key, path))
    ensures Dimmed(PartLight(m, key, path, level), big, l, TimesUnder(m, key, path), Outermost(WithoutMaster(m), key, path))
  {
    var all := WithoutMaster(m);
    ScaledPower(all, key, path, level, SoftwareTargets(m), big);
    hide MasterThrough;
    PassedDims(PartLight(m, key, path, level), big, l, MasterPasses(all, m.parts, path), Outermost(all, key, path),
               SoftwarePasses(all, key, path, SoftwareTargets(m)));
  }

  lemma ColourIs(m: Model, o: uint16, path: seq<string>, level: int -> real, big: real, l: real, inner: bool)
    requires |m.parameters| > 0 && level(|m.parameters| - 1) == big
    requires MasterThrough(WithoutMaster(m), m.parts, path, level) == Power(big, MasterPasses(WithoutMaster(m), m.parts, path))
    requires ColourScale(m.parameters, o, level) == if inner then 1.0 else l
    ensures Dimmed(ColourLight(m, o, path, level), big, l, TimesOver(m, o, path),
                   Dimmers(inner))
  {
    PowerOne(l);
    hide MasterThrough, TimesListed;
    PassedDims(ColourLight(m, o, path, level), big, l, MasterPasses(WithoutMaster(m), m.parts, path), Dimmers(inner), TimesListed(m, o));
  }

  lemma PartPassed(cfs: ChannelMap, footprint: uint16, ps: seq<Parameter>, raw: seq<uint16>, tree: Tree, defs: seq<FaderDef>, claims: Claims,
                   rig: Rig, entry: string, t: nat, n: nat, key: string, path: seq<string>)
    requires entry in rig && Finished(cfs, footprint, ps, raw, tree, rig[entry].model) && OffsetsDistinct(rig[entry].model.parameters)
    requires OnlyMaster(defs, claims, rig, entry, t) && OnlyFader(defs, claims, rig, entry, key, n)
    ensures var m, level := rig[entry].model, Levels(defs, claims, rig, entry);
            Dimmed(PartLight(m, key, path, level), claims[defs[t].id].level, claims[defs[n].id].level, TimesUnder(m, key, path),
                   Outermost(WithoutMaster(m), key, path))
  {
    var m, level := rig[entry].model, Levels(defs, claims, rig, entry);
    var all := WithoutMaster(m);
    MasterLevels(cfs, footprint, ps, raw, tree, defs, claims, rig, entry, t, path);
    PartLevelled(cfs, footprint, ps, raw, tree, defs, claims, rig, entry, key, n, path);
    hide *;
    PartIs(m, key, path, level, claims[defs[t].id].level, claims[defs[n].id].level);
  }

  lemma UnderOnce(cfs: ChannelMap, footprint: uint16, ps: seq<Parameter>, raw: seq<uint16>, tree: Tree, m: Model, j: nat, path: seq<string>)
    requires Finished(cfs, footprint, ps, raw, tree, m) && j < |m.parts| && !m.parts[j].master
    requires IsPath(tree, path) && |path| <= CLIMB_LIMIT && DimmerOn(m, m.parts[j].key, path)
    ensures OnePerGeometry(WithoutMaster(m), m.parts[j].key) ==>
              Outermost(WithoutMaster(m), m.parts[j].key, path) == 1 &&
              (TimesUnder(m, m.parts[j].key, path) == 1 <==> MeetsOnce(m, path, m.parts[j].governed))
  {
    FinishedWell(cfs, footprint, ps, raw, tree, m);
    MasterDimsOnce(cfs, footprint, ps, raw, tree, m, j, path);
    hide Finished, WellModelled, IsPath;
    PassesOfPart(tree, m, j, path);
  }

  /** A dimmer channel of the part is on path. */
  ghost predicate DimmerOn(m: Model, key: string, path: seq<string>)
    requires |m.parameters| > 0
  {
    exists i :: 0 <= i < |WithoutMaster(m)| && Dims(WithoutMaster(m)[i], key, path)
  }

  /** Master times part, without double dimming. With the type fader at M and the part's fader at L, each
      the only moved one over its channels, light below a dimmer channel of the part is at M to the power
      of how often it meets the master, times L to that of its outermost dimmers. With one dimmer of the
      part per geometry that is M times L, for M between dark and full and L not dark, exactly when the
      light meets the master once. */
  lemma PartUnderMaster(cfs: ChannelMap, footprint: uint16, ps: seq<Parameter>, raw: seq<uint16>, tree: Tree, defs: seq<FaderDef>, claims: Claims,
                        rig: Rig, entry: string, t: nat, n: nat, j: nat, path: seq<string>)
    requires entry in rig && Finished(cfs, footprint, ps, raw, tree, rig[entry].model) && OffsetsDistinct(rig[entry].model.parameters)
    requires j < |rig[entry].model.parts| && !rig[entry].model.parts[j].master
    requires OnlyMaster(defs, claims, rig, entry, t) && OnlyFader(defs, claims, rig, entry, rig[entry].model.parts[j].key, n)
    requires IsPath(tree, path) && |path| <= CLIMB_LIMIT && DimmerOn(rig[entry].model, rig[entry].model.parts[j].key, path)
    ensures var m, big, l := rig[entry].model, claims[defs[t].id].level, claims[defs[n].id].level;
            var key := m.parts[j].key;
            var light := PartLight(m, key, path, Levels(defs, claims, rig, entry));
            Dimmed(light, big, l, TimesUnder(m, key, path), Outermost(WithoutMaster(m), key, path)) &&
            (OnePerGeometry(WithoutMaster(m), key) ==> TimesPart(light, big, l, MeetsOnce(m, path, m.parts[j].governed)))
  {
    var m, big, l := rig[entry].model, claims[defs[t].id].level, claims[defs[n].id].level;
    var key := m.parts[j].key;
    PartPassed(cfs, footprint, ps, raw, tree, defs, claims, rig, entry, t, n, key, path);
    UnderOnce(cfs, footprint, ps, raw, tree, m, j, path);
    hide *;
    var light := PartLight(m, key, path, Levels(defs, claims, rig, entry));
    if OnePerGeometry(WithoutMaster(m), key) {
      DimmedTimes(light, big, l, TimesUnder(m, key, path), MeetsOnce(m, path, m.parts[j].governed));
    }
  }

  lemma ColourPassed(cfs: ChannelMap, footprint: uint16, ps: seq<Parameter>, raw: seq<uint16>, tree: Tree, defs: seq<FaderDef>, claims: Claims,
                     rig: Rig, entry: string, t: nat, n: nat, i: nat, j: nat, o: uint16, path: seq<string>)
    requires entry in rig && Finished(cfs, footprint, ps, raw, tree, rig[entry].model) && OffsetsDistinct(rig[entry].model.parameters)
    requires j < |rig[entry].model.parts| && i < |rig[entry].model.parameters|
    requires InPart(rig[entry].model.parameters[i], rig[entry].model.parts[j].key) && Scales(rig[entry].model.parameters[i], o)
    requires OnlyMaster(defs, claims, rig, entry, t) && OnlyFader(defs, claims, rig, entry, rig[entry].model.parts[j].key, n)
    ensures var m, level := rig[entry].model, Levels(defs, claims, rig, entry);
            Dimmed(ColourLight(m, o, path, level), claims[defs[t].id].level, claims[defs[n].id].level,
                   TimesOver(m, o, path), Dimmers(m.parameters[i].inner))
  {
    var m, big, l := rig[entry].model, claims[defs[t].id].level, claims[defs[n].id].level;
    var level := Levels(defs, claims, rig, entry);
    MasterLevels(cfs, footprint, ps, raw, tree, defs, claims, rig, entry, t, path);
    VirtualCellDimmed(cfs, footprint, ps, raw, tree, defs, claims, rig, entry, m.parts[j].key, n, i, o);
    hide *;
    ColourIs(m, o, path, level, big, l, m.parameters[i].inner);
  }

  /** The same of light in a colour channel o that a virtual dimmer of the part scales: M to the power of
      how often it meets the master, times L unless the virtual dimmer is inner. The light of an inner one
      escapes part and master altogether where its part is not governed and no master channel is above. */
  lemma CellUnderMaster(cfs: ChannelMap, footprint: uint16, ps: seq<Parameter>, raw: seq<uint16>, tree: Tree, defs: seq<FaderDef>, claims: Claims,
                        rig: Rig, entry: string, t: nat, n: nat, i: nat, j: nat, o: uint16, path: seq<string>)
    requires entry in rig && Finished(cfs, footprint, ps, raw, tree, rig[entry].model) && OffsetsDistinct(rig[entry].model.parameters)
    requires j < |rig[entry].model.parts| && !rig[entry].model.parts[j].master && i < |rig[entry].model.parameters|
    requires InPart(rig[entry].model.parameters[i], rig[entry].model.parts[j].key) && Scales(rig[entry].model.parameters[i], o)
    requires OnlyMaster(defs, claims, rig, entry, t) && OnlyFader(defs, claims, rig, entry, rig[entry].model.parts[j].key, n)
    requires IsPath(tree, path) && |path| <= CLIMB_LIMIT
    requires rig[entry].model.parameters[i].instance == "" || rig[entry].model.parameters[i].instance in path
    ensures var m, big, l := rig[entry].model, claims[defs[t].id].level, claims[defs[n].id].level;
            var p, light := m.parameters[i], ColourLight(m, o, path, Levels(defs, claims, rig, entry));
            var times := TimesOver(m, o, path);
            Dimmed(light, big, l, times, Dimmers(p.inner)) &&
            (!p.inner ==> TimesPart(light, big, l, MeetsOnce(m, path, m.parts[j].governed))) &&
            (p.inner && !m.parts[j].governed && MeetsNone(WithoutMaster(m), m.parts, path) ==> light == 1.0)
  {
    var m, big, l := rig[entry].model, claims[defs[t].id].level, claims[defs[n].id].level;
    var light := ColourLight(m, o, path, Levels(defs, claims, rig, entry));
    ColourPassed(cfs, footprint, ps, raw, tree, defs, claims, rig, entry, t, n, i, j, o, path);
    ColourOnce(cfs, footprint, ps, raw, tree, m, i, j, o, path);
    hide *;
    ColourConcluded(light, big, l, TimesOver(m, o, path), m.parameters[i].inner, MeetsOnce(m, path, m.parts[j].governed),
                    !m.parts[j].governed && MeetsNone(WithoutMaster(m), m.parts, path));
  }

  lemma ColourConcluded(light: real, big: real, l: real, times: nat, inner: bool, once: bool, never: bool)
    requires Dimmed(light, big, l, times, Dimmers(inner))
    requires !inner ==> (times == 1 <==> once)
    requires inner && never ==> times == 0
    ensures !inner ==> TimesPart(light, big, l, once)
    ensures inner && never ==> light == 1.0
  {
    if !inner {
      DimmedTimes(light, big, l, times, once);
    }
  }

  lemma ColourOnce(cfs: ChannelMap, footprint: uint16, ps: seq<Parameter>, raw: seq<uint16>, tree: Tree, m: Model, i: nat, j: nat, o: uint16,
                   path: seq<string>)
    requires Finished(cfs, footprint, ps, raw, tree, m) && i < |m.parameters| && j < |m.parts| && !m.parts[j].master
    requires InPart(m.parameters[i], m.parts[j].key) && Scales(m.parameters[i], o)
    requires IsPath(tree, path) && |path| <= CLIMB_LIMIT && (m.parameters[i].instance == "" || m.parameters[i].instance in path)
    ensures var p, times := m.parameters[i], TimesOver(m, o, path);
            (!p.inner ==> (times == 1 <==> MeetsOnce(m, path, m.parts[j].governed))) &&
            (p.inner && !m.parts[j].governed && MeetsNone(WithoutMaster(m), m.parts, path) ==> times == 0)
  {
    MasterDimsColour(cfs, footprint, ps, raw, tree, m, i, j, o, path);
    hide Finished, MeetsOne, MeetsNone, IsPath;
  }

  // ---------------------------------------------------------------- two faders alone

  /** A type fader and the fader of a part that is not the master, both moved, over one fixture. */
  ghost predicate TwoFaders(defs: seq<FaderDef>, claims: Claims, entry: string, key: string)
  {
    |defs| == 2 && IsTypeMaster(defs[0]) && IsPartFader(defs[1], key) && defs[0].members == defs[1].members == [Whole(entry)] &&
    defs[0].id in claims && defs[1].id in claims
  }

  /** They are what PartUnderMaster and CellUnderMaster ask for: neither sets a channel of the other's. */
  lemma TwoFadersAlone(cfs: ChannelMap, footprint: uint16, ps: seq<Parameter>, raw: seq<uint16>, tree: Tree, defs: seq<FaderDef>, claims: Claims,
                       rig: Rig, entry: string, j: nat)
    requires entry in rig && Finished(cfs, footprint, ps, raw, tree, rig[entry].model) && OffsetsDistinct(rig[entry].model.parameters)
    requires j < |rig[entry].model.parts| && !rig[entry].model.parts[j].master
    requires TwoFaders(defs, claims, entry, rig[entry].model.parts[j].key)
    ensures OnlyMaster(defs, claims, rig, entry, 0) && OnlyFader(defs, claims, rig, entry, rig[entry].model.parts[j].key, 1)
  {
    BuiltChannels(cfs, footprint, ps, raw);
    hide Finished, Kept, OnlyMaster;
    forall i | 0 <= i < |rig[entry].model.parameters| && IsDimmer(rig[entry].model.parameters[i]) ensures Kept(defs[0], defs[1], rig, entry, j, i) {
      KeptApart(ps, raw, tree, defs[0], defs[1], rig, entry, j, i);
    }
    AloneThen(defs, claims, rig, entry, j);
  }

  /** Parameter i of the fixture is set by t only where it is the master's, and by p only where it is not. */
  ghost predicate Kept(t: FaderDef, p: FaderDef, rig: Rig, entry: string, j: nat, i: nat)
    requires entry in rig && j < |rig[entry].model.parts| && i < |rig[entry].model.parameters|
  {
    var m := rig[entry].model;
    (OfMaster(m, m.parameters[i]) ==> !ClaimsChannel(p, rig, Channel(entry, m.parameters[i].offset))) &&
    (InPart(m.parameters[i], m.parts[j].key) ==> !ClaimsChannel(t, rig, Channel(entry, m.parameters[i].offset)))
  }

  lemma AloneThen(defs: seq<FaderDef>, claims: Claims, rig: Rig, entry: string, j: nat)
    requires entry in rig && j < |rig[entry].model.parts| && TwoFaders(defs, claims, entry, rig[entry].model.parts[j].key)
    requires forall i :: 0 <= i < |rig[entry].model.parameters| && IsDimmer(rig[entry].model.parameters[i]) ==> Kept(defs[0], defs[1], rig, entry, j, i)
    ensures OnlyMaster(defs, claims, rig, entry, 0) && OnlyFader(defs, claims, rig, entry, rig[entry].model.parts[j].key, 1)
  {
    assert Whole(entry) in defs[0].members;
  }

  lemma KeptApart(ps: seq<Parameter>, raw: seq<uint16>, tree: Tree, t: FaderDef, p: FaderDef, rig: Rig, entry: string, j: nat, i: nat)
    requires entry in rig && Derived(ps, raw, Some(tree), rig[entry].model) && Unmarked(ps) && OffsetsDistinct(rig[entry].model.parameters)
    requires j < |rig[entry].model.parts| && !rig[entry].model.parts[j].master && |rig[entry].model.parts| >= 2
    requires IsTypeMaster(t) && IsPartFader(p, rig[entry].model.parts[j].key) && t.members == p.members == [Whole(entry)]
    requires i < |rig[entry].model.parameters| && IsDimmer(rig[entry].model.parameters[i])
    ensures Kept(t, p, rig, entry, j, i)
  {
    var m := rig[entry].model;
    FadersShareOut(ps, raw, Some(tree), m, i, t, entry);
    hide Finished;
    ClaimsOwn(t, rig, entry, i);
    ClaimsOwn(p, rig, entry, i);
    LeftOut(m, t, p, entry, m.parameters[i], j);
  }

  lemma ClaimsOwn(d: FaderDef, rig: Rig, entry: string, i: nat)
    requires entry in rig && d.members == [Whole(entry)] && OffsetsDistinct(rig[entry].model.parameters) && i < |rig[entry].model.parameters|
    ensures ClaimsChannel(d, rig, Channel(entry, rig[entry].model.parameters[i].offset)) ==>
              Drives(d, rig[entry].model, Whole(entry), rig[entry].model.parameters[i])
  {
    var ps := rig[entry].model.parameters;
    forall k | 0 <= k < |ps| && ps[k].offset == ps[i].offset ensures k == i {
      if k < i {
      } else if i < k {
      }
    }
  }

  lemma LeftOut(m: Model, t: FaderDef, p: FaderDef, entry: string, q: Parameter, j: nat)
    requires j < |m.parts| && !m.parts[j].master && IsPartFader(p, m.parts[j].key)
    requires Drives(t, m, Whole(entry), q) <==> OfMaster(m, q)
    requires OfMaster(m, q) ==> LeftByParts(m, entry, q)
    requires !OfMaster(m, q) ==> exists k :: SetByPart(m, entry, q, k)
    ensures OfMaster(m, q) ==> !Drives(p, m, Whole(entry), q)
    ensures InPart(q, m.parts[j].key) ==> !Drives(t, m, Whole(entry), q)
  {
    if OfMaster(m, q) {
      assert !Holds(p, m, q) && !Drives(p, m, Whole(entry), q);
    }
  }

  /** PartUnderMaster for these two faders alone. */
  lemma TwoFadersPart(cfs: ChannelMap, footprint: uint16, ps: seq<Parameter>, raw: seq<uint16>, tree: Tree, defs: seq<FaderDef>, claims: Claims,
                      rig: Rig, entry: string, j: nat, path: seq<string>)
    requires entry in rig && Finished(cfs, footprint, ps, raw, tree, rig[entry].model) && OffsetsDistinct(rig[entry].model.parameters)
    requires j < |rig[entry].model.parts| && !rig[entry].model.parts[j].master
    requires TwoFaders(defs, claims, entry, rig[entry].model.parts[j].key)
    requires IsPath(tree, path) && |path| <= CLIMB_LIMIT && DimmerOn(rig[entry].model, rig[entry].model.parts[j].key, path)
    requires OnePerGeometry(WithoutMaster(rig[entry].model), rig[entry].model.parts[j].key)
    ensures var m := rig[entry].model;
            TimesPart(PartLight(m, m.parts[j].key, path, Levels(defs, claims, rig, entry)), claims[defs[0].id].level, claims[defs[1].id].level,
                      MeetsOnce(m, path, m.parts[j].governed))
  {
    TwoFadersAlone(cfs, footprint, ps, raw, tree, defs, claims, rig, entry, j);
    hide *;
    PartUnderMaster(cfs, footprint, ps, raw, tree, defs, claims, rig, entry, 0, 1, j, path);
  }
}
