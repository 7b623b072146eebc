/** What each kind of fader sets, told by the fixtures' parameters: group members, types and parts, from the
    stored groups and the patch to the channels. */
module FaderChannels {
  import opened Prelude
  import opened ChannelMap
  import opened ParameterModel
  import opened Faders

  // ---------------------------------------------------------------- told by parameters

  /** The fixture has a software master. */
  predicate Mastered(m: Model)
  {
    exists q :: 0 <= q < |m.parameters| && m.parameters[q].master
  }

  /** p is the dimmer channel of a part that is the fixture's master. */
  predicate MasterPartChannel(m: Model, p: Parameter)
  {
    p.attribute == "Dimmer" && !p.virtual && !p.master &&
    exists j :: 0 <= j < |m.parts| && m.parts[j].master && m.parts[j].key == PartKey(p.instance)
  }

  /** p is among what dims the whole fixture: the software master and the master part's channels, or every
      dimmer where there is no software master. */
  predicate WholeIntensity(m: Model, p: Parameter)
  {
    p.attribute == "Dimmer" && (Mastered(m) ==> p.master || MasterPartChannel(m, p))
  }

  /** p is among what dims target t. */
  predicate TargetIntensity(m: Model, t: Target, p: Parameter)
  {
    if t.cell == "" then WholeIntensity(m, p) else p.attribute == "Dimmer" && p.cell == t.cell
  }

  /** p is a dimmer of part key, inner or outermost. */
  predicate PartIntensity(p: Parameter, key: string, inner: bool)
  {
    p.attribute == "Dimmer" && !p.master && PartKey(p.instance) == key && p.inner == inner
  }

  /** The three ways faders set channels: a part's fader, and the plain fader of a type with one part, its
      outermost dimmers, holding the inner ones; any other what dims each target. */
  lemma DrivesByParameter(d: FaderDef, m: Model, t: Target, p: Parameter)
    ensures d.kind.PartFader? ==> (Drives(d, m, t, p) <==> PartIntensity(p, d.part, false)) && (Holds(d, m, p) <==> PartIntensity(p, d.part, true))
    ensures d.kind.TypeFader? && !d.hasParts && |m.parts| == 1 ==>
              (Drives(d, m, t, p) <==> PartIntensity(p, m.parts[0].key, false)) && (Holds(d, m, p) <==> PartIntensity(p, m.parts[0].key, true))
    ensures d.kind.GroupFader? || (d.kind.TypeFader? && (d.hasParts || |m.parts| != 1)) ==>
              (Drives(d, m, t, p) <==> TargetIntensity(m, t, p)) && !Holds(d, m, p)
  {
    hide PartKey;
  }

  // ---------------------------------------------------------------- the faders of a show

  /** Target t is in the patch, and its cell, if it names one, is a cell of its fixture. */
  predicate IsLive(rig: Rig, t: Target)
  {
    t.entry in rig && (t.cell != "" ==> exists i :: 0 <= i < |rig[t.entry].model.cells| && rig[t.entry].model.cells[i].id == t.cell)
  }

  lemma {:induction false} LiveMembersAre(ts: seq<Target>, rig: Rig)
    ensures forall t :: t in LiveMembers(ts, rig) <==> t in ts && IsLive(rig, t)
  {
    if ts != [] {
      var init, last := ts[..|ts| - 1], ts[|ts| - 1];
      LiveMembersAre(init, rig);
      assert ts == init + [last];
    }
  }

  lemma {:induction false} GroupDefsAre(groups: seq<FaderGroup>, rig: Rig)
    ensures |GroupDefs(groups, rig)| == |groups|
    ensures forall i :: 0 <= i < |groups| ==>
              var d := GroupDefs(groups, rig)[i];
              d.id == "group:" + groups[i].id && d.kind.GroupFader? && forall t :: t in d.members <==> t in groups[i].members && IsLive(rig, t)
  {
    hide LiveMembers, IsLive;
    if groups != [] {
      GroupDefsAre(groups[..|groups| - 1], rig);
      LiveMembersAre(groups[|groups| - 1].members, rig);
    }
  }

  /** A fader of a type or a part. */
  predicate OfType(d: FaderDef)
  {
    !d.kind.GroupFader? && d.id != "" && d.id[0] in {'t', 'p'}
  }

  lemma {:induction false} TypesAreTypes(order: seq<string>, rig: Rig)
    requires forall e :: e in order ==> e in rig
    ensures forall d :: d in TypeDefs(order, rig) ==> OfType(d) && d.kind.TypeFader? && !d.hasParts && |d.members| > 0 && "type:" <= d.id
  {
    if order != [] {
      TypesAreTypes(order[..|order| - 1], rig);
    }
  }

  lemma {:induction false} PartsAreParts(d: FaderDef, parts: seq<Part>)
    ensures forall x :: x in PartDefs(d, parts) <==> exists j :: IsPartDef(d, parts, j, x)
  {
    if parts != [] {
      var n := |parts| - 1;
      PartsAreParts(d, parts[..n]);
      forall x ensures x in PartDefs(d, parts) <==> exists j :: IsPartDef(d, parts, j, x) {
        if j :| IsPartDef(d, parts[..n], j, x) {
          assert IsPartDef(d, parts, j, x);
        }
        if j :| IsPartDef(d, parts, j, x) {
          assert j < n ==> IsPartDef(d, parts[..n], j, x);
        }
        if !parts[n].master {
          assert IsPartDef(d, parts, n, PartDef(d, parts[n].key));
        }
      }
    }
  }

  function PartDef(d: FaderDef, key: string): FaderDef
  {
    FaderDef("part:" + (if "type:" <= d.id then d.id[5..] else d.id) + "|" + key, PartFader, false, key, d.members)
  }

  /** x is the fader of the j-th part, which is not the master, for the members of d. */
  predicate IsPartDef(d: FaderDef, parts: seq<Part>, j: int, x: FaderDef)
  {
    0 <= j < |parts| && !parts[j].master && x == PartDef(d, parts[j].key)
  }

  // ---------------------------------------------------------------- which faders there are

  /** The parts of a type fader's first fixture. */
  function FirstParts(d: FaderDef, rig: Rig): seq<Part>
  {
    if d.members != [] && d.members[0].entry in rig then rig[d.members[0].entry].model.parts else []
  }

  /** x is the type fader d itself, marked where its first fixture has several parts, or one of theirs. */
  ghost predicate ComesOf(d: FaderDef, rig: Rig, x: FaderDef)
  {
    x == d.(hasParts := d.hasParts || |FirstParts(d, rig)| > 1) ||
    (|FirstParts(d, rig)| > 1 && exists j :: IsPartDef(d, FirstParts(d, rig), j, x))
  }

  /** x comes of one of the types. */
  ghost predicate ComesOfAny(types: seq<FaderDef>, rig: Rig, x: FaderDef)
  {
    exists i :: 0 <= i < |types| && ComesOf(types[i], rig, x)
  }

  lemma LastComes(types: seq<FaderDef>, rig: Rig, x: FaderDef)
    requires types != []
    ensures ComesOfAny(types, rig, x) <==> ComesOfAny(types[..|types| - 1], rig, x) || ComesOf(types[|types| - 1], rig, x)
  {
    hide ComesOf;
    var init := types[..|types| - 1];
    assert forall i :: 0 <= i < |init| ==> types[i] == init[i];
    if i :| 0 <= i < |init| && ComesOf(init[i], rig, x) {
      assert ComesOf(types[i], rig, x);
    }
  }

  lemma {:induction false} ExpandedAre(types: seq<FaderDef>, rig: Rig)
    ensures forall x :: x in ExpandAll(types, rig) <==> ComesOfAny(types, rig, x)
  {
    hide ComesOfAny, ComesOf;
    if types != [] {
      var n := |types| - 1;
      ExpandedAre(types[..n], rig);
      forall x ensures x in ExpandAll(types, rig) <==> ComesOfAny(types, rig, x) {
        OneExpanded(types[n], rig, x);
        LastComes(types, rig, x);
      }
    } else {
      NoneComes(rig);
    }
  }

  lemma NoneComes(rig: Rig)
    ensures forall x :: !ComesOfAny([], rig, x)
  {}

  lemma OneExpanded(d: FaderDef, rig: Rig, x: FaderDef)
    ensures x in Expand(d, rig) <==> ComesOf(d, rig, x)
  {
    PartsAreParts(d, FirstParts(d, rig));
    hide IsPartDef;
  }

  /** The faders of a show: every type's, marked and followed by its parts' where its first fixture has
      several parts; then the stored groups', each over its live targets. */
  lemma FadersAre(order: seq<string>, rig: Rig, groups: seq<FaderGroup>)
    requires forall e :: e in order ==> e in rig
    ensures forall x :: x in FaderDefs(order, rig, groups) <==>
              ComesOfAny(TypeDefs(order, rig), rig, x) || x in GroupDefs(groups, rig)
    ensures forall x :: x in FaderDefs(order, rig, groups) ==> OfType(x) || x in GroupDefs(groups, rig)
  {
    ExpandedAre(TypeDefs(order, rig), rig);
    TypesAreTypes(order, rig);
    GroupDefsAre(groups, rig);
    hide ComesOf;
    forall x | x in FaderDefs(order, rig, groups) && x !in GroupDefs(groups, rig) ensures OfType(x) {
      var i :| 0 <= i < |TypeDefs(order, rig)| && ComesOf(TypeDefs(order, rig)[i], rig, x);
      ComesOfType(TypeDefs(order, rig)[i], rig, x);
    }
  }

  lemma ComesOfType(d: FaderDef, rig: Rig, x: FaderDef)
    requires ComesOf(d, rig, x) && OfType(d)
    ensures OfType(x)
  {}

  // ---------------------------------------------------------------- group faders

  /** Channel k belongs to a live target of a stored group gid and is among what dims it. */
  ghost predicate OfGroup(groups: seq<FaderGroup>, rig: Rig, gid: string, k: Channel)
  {
    exists g, t, j :: GroupReaches(groups, rig, gid, k, g, t, j)
  }

  predicate GroupReaches(groups: seq<FaderGroup>, rig: Rig, gid: string, k: Channel, g: int, t: Target, j: int)
  {
    0 <= g < |groups| && groups[g].id == gid && t in groups[g].members && IsLive(rig, t) && t.entry == k.entry &&
    0 <= j < |rig[t.entry].model.parameters| && rig[t.entry].model.parameters[j].offset == k.offset &&
    TargetIntensity(rig[t.entry].model, t, rig[t.entry].model.parameters[j])
  }

  lemma {:induction false} SameId(a: string, b: string)
    ensures "group:" + a == "group:" + b <==> a == b
  {
    assert ("group:" + a)[6..] == a && ("group:" + b)[6..] == b;
  }

  /** Nothing else has a group fader's id, and it claims exactly its group's channels. */
  lemma GroupClaims(order: seq<string>, rig: Rig, groups: seq<FaderGroup>, gid: string, k: Channel)
    requires forall e :: e in order ==> e in rig
    ensures var defs := FaderDefs(order, rig, groups);
            ((exists i :: 0 <= i < |defs| && defs[i].id == "group:" + gid && ClaimsChannel(defs[i], rig, k)) <==> OfGroup(groups, rig, gid, k)) &&
            forall i :: 0 <= i < |defs| && defs[i].id == "group:" + gid ==> !HoldsChannel(defs[i], rig, k)
  {
    var defs, gs := FaderDefs(order, rig, groups), GroupDefs(groups, rig);
    FadersAre(order, rig, groups);
    GroupDefsAre(groups, rig);
    hide IsLive, TargetIntensity, ComesOf;
    forall i | 0 <= i < |defs| && defs[i].id == "group:" + gid
      ensures !HoldsChannel(defs[i], rig, k) && (ClaimsChannel(defs[i], rig, k) ==> OfGroup(groups, rig, gid, k))
    {
      GroupDefAt(order, rig, groups, gid, i);
      var g :| 0 <= g < |groups| && gs[g] == defs[i];
      SameId(groups[g].id, gid);
      GroupDefClaims(defs[i], groups, rig, gid, k, g);
    }
    if g, t, j :| GroupReaches(groups, rig, gid, k, g, t, j) {
      assert gs[g] in defs;
      var i :| 0 <= i < |defs| && defs[i] == gs[g];
      GroupDefClaims(defs[i], groups, rig, gid, k, g);
    }
  }

  lemma GroupDefAt(order: seq<string>, rig: Rig, groups: seq<FaderGroup>, gid: string, i: nat)
    requires (forall e :: e in order ==> e in rig) && i < |FaderDefs(order, rig, groups)| && FaderDefs(order, rig, groups)[i].id == "group:" + gid
    ensures FaderDefs(order, rig, groups)[i] in GroupDefs(groups, rig)
  {
    FadersAre(order, rig, groups);
    var x := FaderDefs(order, rig, groups)[i];
    assert x in FaderDefs(order, rig, groups) && x.id[0] == 'g';
  }

  lemma GroupDefClaims(d: FaderDef, groups: seq<FaderGroup>, rig: Rig, gid: string, k: Channel, g: nat)
    requires g < |groups| && d.kind.GroupFader? && groups[g].id == gid
    requires forall t :: t in d.members <==> t in groups[g].members && IsLive(rig, t)
    ensures ClaimsChannel(d, rig, k) ==> OfGroup(groups, rig, gid, k)
    ensures (exists t, j :: GroupReaches(groups, rig, gid, k, g, t, j)) ==> ClaimsChannel(d, rig, k)
    ensures !HoldsChannel(d, rig, k)
  {
    hide TargetIntensity, Drives;
    if ClaimsChannel(d, rig, k) {
      var i, j :| 0 <= i < |d.members| && d.members[i].entry == k.entry && k.entry in rig && 0 <= j < |rig[k.entry].model.parameters| &&
                  rig[k.entry].model.parameters[j].offset == k.offset && Drives(d, rig[k.entry].model, d.members[i], rig[k.entry].model.parameters[j]);
      DrivesByParameter(d, rig[k.entry].model, d.members[i], rig[k.entry].model.parameters[j]);
      assert d.members[i] in d.members;
      assert GroupReaches(groups, rig, gid, k, g, d.members[i], j);
    }
    if t, j :| GroupReaches(groups, rig, gid, k, g, t, j) {
      var i :| 0 <= i < |d.members| && d.members[i] == t;
      DrivesByParameter(d, rig[k.entry].model, d.members[i], rig[k.entry].model.parameters[j]);
    }
  }

  /** Moved last to level c, a group's fader shows that level on every dimmer of its live cells and on what
      dims its live fixtures as a whole; a fader moved for the first time leaves every other channel. */
  lemma GroupShows(order: seq<string>, rig: Rig, groups: seq<FaderGroup>, claims: Claims, gid: string, c: Claim, k: Channel)
    requires (forall e :: e in order ==> e in rig) && forall i :: i in claims ==> claims[i].order < c.order
    ensures var defs, id := FaderDefs(order, rig, groups), "group:" + gid;
            (OfGroup(groups, rig, gid, k) ==> Shown(defs, claims[id := c], rig, k) == Some(c.level)) &&
            (!OfGroup(groups, rig, gid, k) && id !in claims ==> Shown(defs, claims[id := c], rig, k) == Shown(defs, claims, rig, k))
  {
    hide OfGroup;
    GroupClaims(order, rig, groups, gid, k);
    MoveSets(FaderDefs(order, rig, groups), claims, rig, "group:" + gid, c, k);
  }

  // ---------------------------------------------------------------- type and part faders

  /** What the fader of e's type sets of e: the whole fixture's intensity where the type's first fixture has
      several parts or e has not just one; else the outermost dimmers of its part. */
  predicate TypeSets(several: bool, m: Model, p: Parameter)
  {
    if !several && |m.parts| == 1 then PartIntensity(p, m.parts[0].key, false) else WholeIntensity(m, p)
  }

  /** x is the fader of e's type. */
  ghost predicate TypeFaderOf(x: FaderDef, rig: Rig, e: string)
  {
    x.kind.TypeFader? && e in rig && x.id == "type:" + rig[e].fixtureType + "|" + rig[e].mode && Whole(e) in x.members &&
    (x.hasParts <==> |FirstParts(x, rig)| > 1)
  }

  lemma TypeFaderListed(order: seq<string>, rig: Rig, groups: seq<FaderGroup>, e: string) returns (i: nat)
    requires (forall e :: e in order ==> e in rig) && e in order && forall a, b :: 0 <= a < b < |order| ==> order[a] != order[b]
    ensures i < |FaderDefs(order, rig, groups)| && TypeFaderOf(FaderDefs(order, rig, groups)[i], rig, e)
  {
    var types := TypeDefs(order, rig);
    OneTypeFader(order, rig);
    TypesAreTypes(order, rig);
    FadersAre(order, rig, groups);
    var n, j :| MemberOf(types, n, j, Whole(e));
    assert types[n] in types;
    var x := types[n].(hasParts := types[n].hasParts || |FirstParts(types[n], rig)| > 1);
    assert ComesOf(types[n], rig, x);
    assert x in FaderDefs(order, rig, groups);
    i :| 0 <= i < |FaderDefs(order, rig, groups)| && FaderDefs(order, rig, groups)[i] == x;
  }

  /** Moved last to level c, the fader of a fixture's type shows that level on what it sets of the fixture. */
  lemma TypeShows(order: seq<string>, rig: Rig, groups: seq<FaderGroup>, claims: Claims, e: string, c: Claim, j: nat) returns (i: nat)
    requires (forall e :: e in order ==> e in rig) && e in order && forall a, b :: 0 <= a < b < |order| ==> order[a] != order[b]
    requires (forall i :: i in claims ==> claims[i].order < c.order) && j < |rig[e].model.parameters|
    ensures i < |FaderDefs(order, rig, groups)| && TypeFaderOf(FaderDefs(order, rig, groups)[i], rig, e)
    ensures var defs, m := FaderDefs(order, rig, groups), rig[e].model;
            TypeSets(defs[i].hasParts, m, m.parameters[j]) ==>
              Shown(defs, claims[defs[i].id := c], rig, Channel(e, m.parameters[j].offset)) == Some(c.level)
  {
    i := TypeFaderListed(order, rig, groups, e);
    var defs, m := FaderDefs(order, rig, groups), rig[e].model;
    var p := m.parameters[j];
    hide FaderDefs, PartKey, WholeIntensity, Drives;
    if TypeSets(defs[i].hasParts, m, p) {
      DrivesByParameter(defs[i], m, Whole(e), p);
      Claiming(defs[i], rig, Whole(e), j);
      MoveSets(defs, claims, rig, defs[i].id, c, Channel(e, p.offset));
    }
  }

  lemma Claiming(d: FaderDef, rig: Rig, t: Target, j: nat)
    requires t in d.members && t.entry in rig && j < |rig[t.entry].model.parameters| && Drives(d, rig[t.entry].model, t, rig[t.entry].model.parameters[j])
    ensures ClaimsChannel(d, rig, Channel(t.entry, rig[t.entry].model.parameters[j].offset))
  {
    var i :| 0 <= i < |d.members| && d.members[i] == t;
  }

  /** x is the fader of part key of e's type. */
  ghost predicate PartFaderOf(x: FaderDef, rig: Rig, e: string, key: string)
  {
    x.kind.PartFader? && x.part == key && e in rig && x.id == "part:" + rig[e].fixtureType + "|" + rig[e].mode + "|" + key && Whole(e) in x.members
  }

  /** Where a type's first fixture has several parts, each of them but the master has a fader of its own over
      all fixtures of the type; moved last, it shows its level on the part's outermost dimmers. */
  lemma PartShows(order: seq<string>, rig: Rig, groups: seq<FaderGroup>, claims: Claims, e: string, n: nat, c: Claim, j: nat) returns (i: nat)
    requires (forall e :: e in order ==> e in rig) && e in order && forall a, b :: 0 <= a < b < |order| ==> order[a] != order[b]
    requires (forall i :: i in claims ==> claims[i].order < c.order) && j < |rig[e].model.parameters|
    requires exists x :: x in FaderDefs(order, rig, groups) && TypeFaderOf(x, rig, e) && NamesPart(x, rig, n)
    ensures i < |FaderDefs(order, rig, groups)|
    ensures exists x :: TypeFaderOf(x, rig, e) && NamesPart(x, rig, n) && PartFaderOf(FaderDefs(order, rig, groups)[i], rig, e, FirstParts(x, rig)[n].key)
    ensures var defs, m := FaderDefs(order, rig, groups), rig[e].model;
            PartIntensity(m.parameters[j], defs[i].part, false) ==>
              Shown(defs, claims[defs[i].id := c], rig, Channel(e, m.parameters[j].offset)) == Some(c.level)
  {
    i := PartFaderListed(order, rig, groups, e, n);
    var defs, m := FaderDefs(order, rig, groups), rig[e].model;
    var p := m.parameters[j];
    hide FaderDefs, PartKey, Drives;
    if PartIntensity(p, defs[i].part, false) {
      DrivesByParameter(defs[i], m, Whole(e), p);
      Claiming(defs[i], rig, Whole(e), j);
      MoveSets(defs, claims, rig, defs[i].id, c, Channel(e, p.offset));
    }
  }

  /** The first fixture of x has several parts, and the n-th of them is not the master. */
  ghost predicate NamesPart(x: FaderDef, rig: Rig, n: nat)
  {
    |FirstParts(x, rig)| > 1 && n < |FirstParts(x, rig)| && !FirstParts(x, rig)[n].master
  }

  lemma PartFaderListed(order: seq<string>, rig: Rig, groups: seq<FaderGroup>, e: string, n: nat) returns (i: nat)
    requires (forall e :: e in order ==> e in rig) && e in order && forall a, b :: 0 <= a < b < |order| ==> order[a] != order[b]
    requires exists x :: x in FaderDefs(order, rig, groups) && TypeFaderOf(x, rig, e) && NamesPart(x, rig, n)
    ensures i < |FaderDefs(order, rig, groups)|
    ensures exists x :: TypeFaderOf(x, rig, e) && NamesPart(x, rig, n) && PartFaderOf(FaderDefs(order, rig, groups)[i], rig, e, FirstParts(x, rig)[n].key)
  {
    var types := TypeDefs(order, rig);
    FadersAre(order, rig, groups);
    TypesAreTypes(order, rig);
    GroupDefsAre(groups, rig);
    hide ComesOf, NamesPart, TypeFaderOf, PartDef, PartFaderOf;
    var x :| x in FaderDefs(order, rig, groups) && TypeFaderOf(x, rig, e) && NamesPart(x, rig, n);
    KindOfType(x, rig, e);
    var k :| 0 <= k < |types| && ComesOf(types[k], rig, x);
    var part := PartOfType(types[k], rig, x, e, n);
    assert part in FaderDefs(order, rig, groups);
    i :| 0 <= i < |FaderDefs(order, rig, groups)| && FaderDefs(order, rig, groups)[i] == part;
  }

  lemma KindOfType(x: FaderDef, rig: Rig, e: string)
    requires TypeFaderOf(x, rig, e)
    ensures x.kind.TypeFader?
  {}

  lemma PartOfType(d: FaderDef, rig: Rig, x: FaderDef, e: string, n: nat) returns (part: FaderDef)
    requires ComesOf(d, rig, x) && TypeFaderOf(x, rig, e) && NamesPart(x, rig, n) && d.kind.TypeFader?
    ensures ComesOf(d, rig, part) && n < |FirstParts(x, rig)| && PartFaderOf(part, rig, e, FirstParts(x, rig)[n].key)
  {
    part := PartDef(d, FirstParts(x, rig)[n].key);
    assert IsPartDef(d, FirstParts(d, rig), n, part);
    var rest := rig[e].fixtureType + "|" + rig[e].mode;
    assert "type:" + rig[e].fixtureType + "|" + rig[e].mode == "type:" + rest && ("type:" + rest)[5..] == rest;
  }
}
