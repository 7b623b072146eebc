/** The parameter model of one fixture, built in place: each step of the original reads and rewrites
    the parameter list it finds. Every method is proved to leave what the functions of ParameterModel
    say it leaves. */
module FixtureModels {
  import opened Prelude
  import opened GeometryTree
  import opened ChannelMap
  import opened ParameterModel

  class FixtureModel {
    var parameters: seq<Parameter>
    var cells: seq<Cell>
    var parts: seq<Part>
    var treeKnown: bool
    var rawOffsets: seq<uint16>

    function Value(): Model
      reads this
    {
      Model(parameters, cells, parts, treeKnown, rawOffsets)
    }

    constructor (ps: seq<Parameter>, raw: seq<uint16>)
      ensures Value() == Model(ps, [], [], false, raw)
    {
      parameters, cells, parts, treeKnown, rawOffsets := ps, [], [], false, raw;
    }

    method GatherAttributes() returns (attrs: map<string, set<string>>)
      ensures Gathered(parameters, attrs)
    {
      attrs := map[];
      for i := 0 to |parameters|
        invariant Gathered(parameters[..i], attrs)
      {
        var p := parameters[i];
        assert parameters[..i + 1] == parameters[..i] + [p];
        InstancesStep(parameters[..i], p);
        AttributesStep(parameters[..i], p);
        hide Instances, AttributesOf;
        if p.instance != "" {
          if p.instance !in attrs {
            attrs := attrs[p.instance := {}];
          }
          attrs := attrs[p.instance := attrs[p.instance] + {p.attribute}];
        }
      }
      assert parameters[..|parameters|] == parameters;
    }

    /** Marks the cells and their channels. The original sorts the cells by their first channel; the
        channels are in offset order, so they are met in that order. */
    method AssignCells()
      modifies this`cells, this`parameters
      ensures parameters == WithCells(old(parameters)) && cells == CellsOf(old(parameters))
    {
      var ps := parameters;
      var attrs := GatherAttributes();
      var ids: seq<string> := [];
      for i := 0 to |ps|
        invariant ids == CellIds(ps, i)
      {
        var inst := ps[i].instance;
        hide IsCell;
        if inst in attrs && inst !in ids && exists other :: other in attrs && other != inst && attrs[other] == attrs[inst] {
          ids := ids + [inst];
        }
      }
      cells := seq(|ids|, i requires 0 <= i < |ids| => Cell(ids[i], i + 1));
      CellsListed(ps, |ps|);
      assert ps[..|ps|] == ps;
      var qs := ps;
      for i := 0 to |ps|
        invariant |qs| == |ps|
        invariant forall j :: 0 <= j < |ps| ==> qs[j] == if j < i then WithCells(ps)[j] else ps[j]
      {
        var p := ps[i];
        qs := qs[i := p.(cell := if p.instance in ids then p.instance else "")];
      }
      parameters := qs;
    }

    method EmptyScopes() returns (scopes: map<string, Scope>)
      ensures "" in scopes && forall c :: c in cells ==> c.id in scopes
      ensures forall k :: k in scopes ==> scopes[k] == EMPTY_SCOPE
    {
      scopes := map["" := EMPTY_SCOPE];
      for i := 0 to |cells|
        invariant "" in scopes && forall j :: 0 <= j < i ==> cells[j].id in scopes
        invariant forall k :: k in scopes ==> scopes[k] == EMPTY_SCOPE
      {
        scopes := scopes[cells[i].id := EMPTY_SCOPE];
      }
    }

    /** What every scope has, and which parts have a dimmer channel. */
    method NoteScopes() returns (scopes: map<string, Scope>, realPart: set<string>)
      ensures "" in scopes && forall c :: c in cells ==> c.id in scopes
      ensures forall k :: k in scopes ==> scopes[k] == ScopeOf(parameters, k)
      ensures forall k :: k in realPart <==> HasRealDimmer(parameters, k)
    {
      var ps := parameters;
      scopes := EmptyScopes();
      ghost var keys := scopes.Keys;
      realPart := {};
      for i := 0 to |ps|
        invariant scopes.Keys == keys
        invariant forall k :: k in scopes ==> scopes[k] == ScopeOf(ps[..i], k)
        invariant forall k :: k in realPart <==> HasRealDimmer(ps[..i], k)
      {
        var p := ps[i];
        assert ps[..i + 1] == ps[..i] + [p];
        RealDimmerStep(ps[..i], p);
        hide *;
        if p.cell in scopes {
          scopes := scopes[p.cell := NoteChannel(scopes[p.cell], p)];
        }
        if IsDimmer(p) && !p.virtual {
          realPart := realPart + {PartKey(p.instance)};
        }
      }
      assert ps[..|ps|] == ps;
    }

    /** Gives every scope with red, green and blue but no dimmer a virtual one; a cell only when its
        part has no dimmer channel. */
    method AddVirtualDimmers()
      modifies this`parameters
      ensures parameters == WithVirtuals(old(parameters), cells)
    {
      var ps := parameters;
      OwnVirtualIs(ps);
      Joined(ps, cells);
      hide *;
      var scopes, realPart := NoteScopes();
      var own := scopes[""];
      var added := if !own.dimmer && own.r && own.g && own.b then [VirtualDimmer(own, "", VIRTUAL_DIMMER_OFFSET)] else [];
      assert added == OwnVirtual(ps);
      for i := 0 to |cells|
        invariant added == OwnVirtual(ps) + CellVirtuals(ps, cells[..i])
      {
        CellVirtualStep(ps, cells, i);
        var c := cells[i];
        assert c in cells;
        var sc := scopes[c.id];
        if !sc.dimmer && sc.r && sc.g && sc.b && !(c.id != "" && PartKey(c.id) in realPart) {
          added := added + [VirtualDimmer(sc, c.id, SyntheticOffset(c.index))];
        }
      }
      assert cells[..|cells|] == cells && cells[..0] == [];
      parameters := ps + added;
    }

    /** Which parts hold cells. */
    method PartsWithCells() returns (holds: set<string>)
      ensures forall k :: k in holds <==> HoldsCells(parameters, cells, k)
    {
      var ps := parameters;
      hide PartKey;
      holds := {};
      for i := 0 to |cells|
        invariant forall k :: k in holds <==> exists j :: 0 <= j < i && PartKey(cells[j].id) == k
      {
        holds := holds + {PartKey(cells[i].id)};
      }
      for i := 0 to |ps|
        invariant forall k :: k in holds <==> HoldsCells(ps[..i], cells, k)
      {
        hide HoldsCells;
        var p := ps[i];
        assert ps[..i + 1] == ps[..i] + [p];
        HoldsStep(ps[..i], cells, p);
        if IsDimmer(p) && (p.cell != "" || p.virtual) {
          holds := holds + {PartKey(p.instance)};
        }
      }
      assert ps[..|ps|] == ps;
    }

    /** The intensity parameters by part. */
    method GroupParts() returns (found: seq<Part>)
      ensures IsGrouping(parameters, found)
    {
      var ps := parameters;
      found := [];
      var idx: map<string, nat> := map[];
      for i := 0 to |ps|
        invariant IsGrouping(ps[..i], found) && Indexes(found, idx)
      {
        hide IsGrouping, PartKey, PartKeys, DimmersOf, Indexes;
        var p := ps[i];
        assert ps[..i + 1] == ps[..i] + [p];
        GroupStep(ps[..i], p, found, idx);
        if IsDimmer(p) {
          var key := PartKey(p.instance);
          if key !in idx {
            idx := idx[key := |found|];
            found := found + [Part(key, false, [p.offset], false)];
          } else {
            var n := idx[key];
            found := found[n := found[n].(dimmers := found[n].dimmers + [p.offset])];
          }
        }
      }
      assert ps[..|ps|] == ps;
    }

    /** Groups the intensity parameters into parts and picks the master. */
    method AssignParts()
      modifies this`parts
      ensures parts == PartsOf(parameters, cells)
    {
      var found := GroupParts();
      var holds := PartsWithCells();
      var candidates: seq<nat> := [];
      for i := 0 to |found|
        invariant forall j :: j in candidates <==> 0 <= j < i && found[j].key !in holds
        invariant forall a, b :: 0 <= a < b < |candidates| ==> candidates[a] < candidates[b]
        invariant forall a :: 0 <= a < |candidates| ==> candidates[a] < i
      {
        if found[i].key !in holds {
          candidates := candidates + [i];
        }
      }
      var master := PickMaster(found, candidates);
      MasterPicked(parameters, cells, found, holds, candidates);
      parts := seq(|found|, i requires 0 <= i < |found| => found[i].(master := i == master));
    }

    static method PickMaster(found: seq<Part>, candidates: seq<nat>) returns (master: int)
      requires forall j :: j in candidates ==> j < |found|
      requires forall a, b :: 0 <= a < b < |candidates| ==> candidates[a] < candidates[b]
      ensures forall i: nat :: Chosen(found, candidates, i) <==> i == master
    {
      master := -1;
      if |candidates| == 1 {
        return candidates[0];
      }
      for i := 0 to |candidates|
        invariant -1 <= master < |found|
        invariant forall a :: 0 <= a < |candidates| ==> candidates[a] in candidates
        invariant master == -1 ==> forall j :: j in candidates[..i] ==> !IsBody(found[j].key)
        invariant master >= 0 ==> master in candidates[..i] && IsBody(found[master].key) &&
                                  forall j :: j in candidates[..i] && IsBody(found[j].key) ==> j == master
      {
        assert candidates[..i + 1] == candidates[..i] + [candidates[i]];
        if IsBody(found[candidates[i]].key) {
          if master >= 0 {
            assert candidates[i] != master;
            return -1;
          }
          master := candidates[i];
        }
      }
      assert candidates[..|candidates|] == candidates;
    }

    /** Marks each intensity parameter that lies under another of its own part. */
    method MarkInnerDimmers(tree: Option<Tree>)
      modifies this`parameters
      ensures parameters == WithInner(old(parameters), tree)
    {
      var ps := parameters;
      if tree.None? {
        assert forall i :: 0 <= i < |ps| ==> WithInner(ps, tree)[i] == ps[i];
        return;
      }
      var insts := PartGeometries();
      var qs := ps;
      for i := 0 to |ps|
        invariant |qs| == |ps|
        invariant forall j :: 0 <= j < |ps| ==> qs[j] == if j < i then ps[j].(inner := ps[j].inner || IsInner(ps, tree, ps[j])) else ps[j]
      {
        hide PartKey, Holders, StrictlyUnder;
        var p := ps[i];
        if !IsDimmer(p) || p.master || p.instance == "" {
          continue;
        }
        var key := PartKey(p.instance);
        var hit := ClimbAbove(tree.value, p.instance, if key in insts then insts[key] else {});
        if hit {
          qs := qs[i := p.(inner := true)];
        }
      }
      parameters := qs;
    }

    /** The geometries that hold each part's dimmers. The original keys this by the part's position;
        the keys of the parts are distinct. */
    method PartGeometries() returns (insts: map<string, set<string>>)
      ensures forall k :: Holders(parameters, k) == if k in insts then insts[k] else {}
    {
      var ps := parameters;
      insts := map[];
      for i := 0 to |ps|
        invariant forall k :: Holders(ps[..i], k) == if k in insts then insts[k] else {}
      {
        var p := ps[i];
        assert ps[..i + 1] == ps[..i] + [p];
        HoldersStep(ps[..i], p);
        hide PartKey, Holders;
        if IsDimmer(p) && !p.master && p.instance != "" {
          var key := PartKey(p.instance);
          insts := insts[key := (if key in insts then insts[key] else {}) + {p.instance}];
        }
      }
      assert ps[..|ps|] == ps;
    }

    /** The geometries of the master channels. */
    method MasterChannels() returns (geometries: set<string>, has: bool)
      ensures geometries == MasterGeometries(parameters, parts)
      ensures has <==> exists i :: 0 <= i < |parameters| && IsMasterChannel(parts, parameters[i])
    {
      hide PartKey, MasterHas;
      geometries, has := {}, false;
      for i := 0 to |parameters|
        invariant geometries == set j | 0 <= j < i && IsMasterChannel(parts, parameters[j]) :: parameters[j].instance
        invariant has <==> exists j :: 0 <= j < i && IsMasterChannel(parts, parameters[j])
      {
        if IsMasterChannel(parts, parameters[i]) {
          geometries, has := geometries + {parameters[i].instance}, true;
        }
      }
    }

    /** Whether the master channel dims every dimmer of the part, and what the software master would
        multiply of it. */
    method ScanPart(part: Part, tree: Option<Tree>, geometries: set<string>, has: bool)
      returns (governed: bool, targets: seq<uint16>, first: Option<Source>)
      requires geometries == MasterGeometries(parameters, parts)
      requires has <==> exists i :: 0 <= i < |parameters| && IsMasterChannel(parts, parameters[i])
      ensures governed <==> IsGoverned(parameters, parts, tree, part)
      ensures !part.master ==> targets == PartTargets(parameters, part.key)
      ensures first == if part.master then None else PartSource(parameters, part.key)
    {
      hide PartKey, AtOrUnder, MasterGeometries, IsMasterChannel, UnderMaster, InPart, TargetsOf;
      var ps := parameters;
      governed, targets, first := true, [], None;
      if part.master {
        return;
      }
      for i := 0 to |ps|
        invariant governed <==> forall j :: 0 <= j < i && InPart(ps[j], part.key) ==> UnderMaster(ps, parts, tree, ps[j].instance)
        invariant targets == PartTargets(ps[..i], part.key) && first == PartSource(ps[..i], part.key)
      {
        var p := ps[i];
        assert ps[..i + 1][..i] == ps[..i];
        UnderIs(ps, parts, tree, p.instance, has);
        if InPart(p, part.key) {
          if first.None? {
            first := Some(p.source);
          }
          var under := has;
          if under && tree.Some? {
            under := ClimbFrom(tree.value, p.instance, geometries);
          }
          governed := governed && under;
          targets := targets + TargetsOf(p);
        }
      }
      assert ps[..|ps|] == ps;
    }

    /** Each part with its governed flag, and the target list of the software master. */
    method ScanParts(tree: Option<Tree>) returns (next: seq<Part>, masterOf: seq<uint16>, src: Option<Source>)
      ensures next == WithGoverned(parameters, parts, tree)
      ensures masterOf == MasterTargets(parameters, parts, tree, |parts|) && src == MasterSource(parameters, parts, |parts|)
    {
      hide Scanned, PartSource;
      var geometries, has := MasterChannels();
      next, masterOf, src := [], [], None;
      NothingScanned(parameters, parts, tree);
      for i := 0 to |parts|
        invariant Scanned(parameters, parts, tree, i, next, masterOf, src)
      {
        var governed, targets, first := ScanPart(parts[i], tree, geometries, has);
        ScannedOne(parameters, parts, tree, i, next, masterOf, src, governed, targets, first);
        if src.None? {
          src := first;
        }
        next := next + [parts[i].(governed := governed)];
        if !governed {
          masterOf := masterOf + targets;
        }
      }
      AllScanned(parameters, parts, tree, next, masterOf, src);
    }

    /** Gives a fixture of several parts its software master. */
    method AddVirtualMaster(tree: Option<Tree>)
      modifies this`parameters, this`parts, this`treeKnown
      ensures treeKnown == tree.Some?
      ensures |old(parts)| < 2 ==> parameters == old(parameters) && parts == old(parts)
      ensures |old(parts)| >= 2 ==>
                parts == WithGoverned(old(parameters), old(parts), tree) && |parameters| > 0 &&
                parameters == old(parameters) +
                  [VirtualMaster(parameters[|parameters| - 1].source, MasterTargets(old(parameters), old(parts), tree, |old(parts)|))] &&
                parameters[|parameters| - 1].source ==
                  match MasterSource(old(parameters), old(parts), |old(parts)|) { case Some(s) => s case None => Absent }
    {
      treeKnown := tree.Some?;
      if |parts| < 2 {
        return;
      }
      var next, masterOf, src := ScanParts(tree);
      hide WithGoverned, MasterTargets;
      parts := next;
      parameters := parameters + [VirtualMaster(if src.Some? then src.value else Absent, masterOf)];
    }
  }

  lemma UnderIs(ps: seq<Parameter>, parts: seq<Part>, tree: Option<Tree>, inst: string, has: bool)
    requires has <==> exists i :: 0 <= i < |ps| && IsMasterChannel(parts, ps[i])
    ensures UnderMaster(ps, parts, tree, inst) <==> has && (tree.None? || AtOrUnder(tree.value, inst, MasterGeometries(ps, parts)))
  {}

  /** Where a part's first dimmer was read from, and the first of those of parts that are not the master. */
  function PartSource(ps: seq<Parameter>, key: string): Option<Source>
  {
    if ps == [] then None
    else
      var before := PartSource(ps[..|ps| - 1], key);
      if before.Some? then before else if InPart(ps[|ps| - 1], key) then Some(ps[|ps| - 1].source) else None
  }

  function MasterSource(ps: seq<Parameter>, parts: seq<Part>, n: nat): Option<Source>
    requires n <= |parts|
  {
    if n == 0 then None
    else
      var before := MasterSource(ps, parts, n - 1);
      if before.Some? || parts[n - 1].master then before else PartSource(ps, parts[n - 1].key)
  }

  /** The source of a part is that of its first intensity parameter. */
  lemma {:induction false} PartSourceIs(ps: seq<Parameter>, key: string)
    ensures PartSource(ps, key).None? <==> forall i :: 0 <= i < |ps| ==> !InPart(ps[i], key)
    ensures forall i :: 0 <= i < |ps| && InPart(ps[i], key) && (forall j :: 0 <= j < i ==> !InPart(ps[j], key)) ==> PartSource(ps, key) == Some(ps[i].source)
  {
    hide InPart;
    if ps != [] {
      PartSourceIs(ps[..|ps| - 1], key);
      assert forall i :: 0 <= i < |ps| - 1 ==> ps[..|ps| - 1][i] == ps[i];
    }
  }

  /** Part j has a source and is not the master. */
  predicate GivesSource(ps: seq<Parameter>, parts: seq<Part>, j: int)
  {
    0 <= j < |parts| && !parts[j].master && PartSource(ps, parts[j].key).Some?
  }

  /** That of the software master is the first part's that has one and is not the master. */
  lemma {:induction false} MasterSourceIs(ps: seq<Parameter>, parts: seq<Part>, n: nat) returns (j: nat)
    requires n <= |parts|
    ensures j <= n && forall l :: 0 <= l < j ==> !GivesSource(ps, parts, l)
    ensures if j < n then GivesSource(ps, parts, j) && MasterSource(ps, parts, n) == PartSource(ps, parts[j].key) else MasterSource(ps, parts, n) == None
  {
    hide PartSource;
    j := 0;
    if n > 0 {
      j := MasterSourceIs(ps, parts, n - 1);
      if j == n - 1 && !GivesSource(ps, parts, j) {
        j := n;
      }
    }
  }

  /** What has been found of the first n parts. */
  ghost predicate Scanned(ps: seq<Parameter>, parts: seq<Part>, tree: Option<Tree>, n: nat, next: seq<Part>, masterOf: seq<uint16>, src: Option<Source>)
  {
    n <= |parts| && next == WithGoverned(ps, parts, tree)[..n] && masterOf == MasterTargets(ps, parts, tree, n) && src == MasterSource(ps, parts, n)
  }

  lemma NothingScanned(ps: seq<Parameter>, parts: seq<Part>, tree: Option<Tree>)
    ensures Scanned(ps, parts, tree, 0, [], [], None)
  {}

  lemma AllScanned(ps: seq<Parameter>, parts: seq<Part>, tree: Option<Tree>, next: seq<Part>, masterOf: seq<uint16>, src: Option<Source>)
    requires Scanned(ps, parts, tree, |parts|, next, masterOf, src)
    ensures next == WithGoverned(ps, parts, tree) && masterOf == MasterTargets(ps, parts, tree, |parts|) && src == MasterSource(ps, parts, |parts|)
  {}

  lemma ScannedOne(ps: seq<Parameter>, parts: seq<Part>, tree: Option<Tree>, n: nat, next: seq<Part>, masterOf: seq<uint16>, src: Option<Source>,
                   governed: bool, targets: seq<uint16>, first: Option<Source>)
    requires n < |parts| && Scanned(ps, parts, tree, n, next, masterOf, src)
    requires governed <==> IsGoverned(ps, parts, tree, parts[n])
    requires !parts[n].master ==> targets == PartTargets(ps, parts[n].key)
    requires first == if parts[n].master then None else PartSource(ps, parts[n].key)
    ensures Scanned(ps, parts, tree, n + 1, next + [parts[n].(governed := governed)], if governed then masterOf else masterOf + targets,
                    if src.None? then first else src)
  {
    hide PartSource;
    GovernedAt(ps, parts, tree, n);
    assert MasterSource(ps, parts, n + 1) ==
             if MasterSource(ps, parts, n).Some? || parts[n].master then MasterSource(ps, parts, n) else PartSource(ps, parts[n].key);
  }

  /** What the i-th part adds to the parts and to the targets. */
  lemma GovernedAt(ps: seq<Parameter>, parts: seq<Part>, tree: Option<Tree>, i: nat)
    requires i < |parts|
    ensures |WithGoverned(ps, parts, tree)| == |parts| && WithGoverned(ps, parts, tree)[..i + 1] ==
              WithGoverned(ps, parts, tree)[..i] + [parts[i].(governed := IsGoverned(ps, parts, tree, parts[i]))]
    ensures MasterTargets(ps, parts, tree, i + 1) ==
              MasterTargets(ps, parts, tree, i) + if IsGoverned(ps, parts, tree, parts[i]) then [] else PartTargets(ps, parts[i].key)
    ensures parts[i].master ==> IsGoverned(ps, parts, tree, parts[i])
  {
    MasterIsGoverned(ps, parts, tree, parts[i]);
    hide IsGoverned, PartTargets;
  }

  lemma MasterIsGoverned(ps: seq<Parameter>, parts: seq<Part>, tree: Option<Tree>, part: Part)
    ensures part.master ==> IsGoverned(ps, parts, tree, part)
  {}

  /** A patch entry, as far as its parameter model reads it. */
  datatype Entry = Entry(channelFunctions: ChannelMap, footprint: uint16, geometryParents: Option<Tree>)

  /** m is what the steps make of channels ps and raw offsets raw. */
  ghost predicate Derived(ps: seq<Parameter>, raw: seq<uint16>, tree: Option<Tree>, m: Model)
  {
    var celled := WithCells(ps);
    var cells := CellsOf(ps);
    var all := WithInner(WithVirtuals(celled, cells), tree);
    var parts := PartsOf(WithVirtuals(celled, cells), cells);
    m.cells == cells && m.rawOffsets == raw && m.treeKnown == tree.Some? &&
    if |parts| < 2
    then m.parameters == all && m.parts == parts
    else m.parts == WithGoverned(all, parts, tree) && |m.parameters| > 0 &&
         m.parameters == all + [VirtualMaster(m.parameters[|m.parameters| - 1].source, MasterTargets(all, parts, tree, |parts|))]
  }

  method BuildFixtureModel(e: Entry) returns (m: FixtureModel)
    ensures fresh(m)
    ensures exists ps, raw :: SharedOut(e.channelFunctions, e.footprint, ps, raw) && RightBytes(e.channelFunctions, ps) &&
                              Derived(ps, raw, e.geometryParents, m.Value())
  {
    var ps, raw := ShareOut(e.channelFunctions, e.footprint);
    m := new FixtureModel(ps, raw);
    hide SharedOut, RightBytes, WithCells, CellsOf, WithVirtuals, PartsOf, WithInner, WithGoverned, MasterTargets;
    m.AssignCells();
    m.AddVirtualDimmers();
    m.AssignParts();
    m.MarkInnerDimmers(e.geometryParents);
    m.AddVirtualMaster(e.geometryParents);
    assert Derived(ps, raw, e.geometryParents, m.Value());
  }

  lemma HoldersStep(ps: seq<Parameter>, p: Parameter)
    ensures forall k :: Holders(ps + [p], k) == Holders(ps, k) + if InPart(p, k) && p.instance != "" then {p.instance} else {}
  {
    hide PartKey;
    var qs := ps + [p];
    assert qs[|ps|] == p;
    forall k, g ensures g in Holders(qs, k) <==> g in Holders(ps, k) || (InPart(p, k) && p.instance != "" && g == p.instance) {
      if g in Holders(ps, k) {
        var i :| 0 <= i < |ps| && InPart(ps[i], k) && ps[i].instance != "" && ps[i].instance == g;
        assert qs[i] == ps[i];
      }
      if g in Holders(qs, k) {
        var i :| 0 <= i < |qs| && InPart(qs[i], k) && qs[i].instance != "" && qs[i].instance == g;
        if i < |ps| {
          assert ps[i] == qs[i];
        }
      }
    }
  }

  /** The only candidate, or the only one among several that is named for a body geometry. */
  predicate Chosen(found: seq<Part>, candidates: seq<nat>, i: nat)
    requires forall j :: j in candidates ==> j < |found|
  {
    i in candidates &&
    (|candidates| == 1 || (IsBody(found[i].key) && forall j :: j in candidates && IsBody(found[j].key) ==> j == i))
  }

  lemma MasterPicked(ps: seq<Parameter>, cells: seq<Cell>, found: seq<Part>, holds: set<string>, candidates: seq<nat>)
    requires IsGrouping(ps, found)
    requires forall k :: k in holds <==> HoldsCells(ps, cells, k)
    requires forall j :: j in candidates <==> 0 <= j < |found| && found[j].key !in holds
    requires forall a, b :: 0 <= a < b < |candidates| ==> candidates[a] < candidates[b]
    ensures forall i :: 0 <= i < |found| ==> (Chosen(found, candidates, i) <==> IsMasterKey(ps, cells, found[i].key))
  {
    KeysDistinct(ps);
    hide PartKeys, HoldsCells, DimmersOf, PartKey;
    var ks := PartKeys(ps);
    assert forall k :: k in ks ==> exists i :: 0 <= i < |found| && found[i].key == k;
    forall i | 0 <= i < |found| ensures Chosen(found, candidates, i) <==> IsMasterKey(ps, cells, found[i].key) {
      var key := found[i].key;
      if Chosen(found, candidates, i) {
        if |candidates| == 1 {
          forall k | k in ks && !HoldsCells(ps, cells, k) ensures k == key {
            var j :| 0 <= j < |found| && found[j].key == k;
            assert j in candidates && i in candidates && candidates[0] == i == j;
          }
        } else {
          forall k | k in ks && !HoldsCells(ps, cells, k) && IsBody(k) ensures k == key {
            var j :| 0 <= j < |found| && found[j].key == k;
            assert j in candidates;
          }
        }
      }
      if IsMasterKey(ps, cells, key) {
        assert i in candidates;
        if forall k :: k in ks && !HoldsCells(ps, cells, k) ==> k == key {
          OnlyOne(found, candidates, i);
        }
      }
    }
  }

  lemma OnlyOne(found: seq<Part>, candidates: seq<nat>, i: nat)
    requires forall j :: j in candidates ==> j < |found|
    requires forall a, b :: 0 <= a < b < |found| ==> found[a].key != found[b].key
    requires forall a, b :: 0 <= a < b < |candidates| ==> candidates[a] < candidates[b]
    requires i in candidates && forall j :: j in candidates ==> found[j].key == found[i].key
    ensures |candidates| == 1
  {
    if |candidates| > 1 {
      assert candidates[0] < candidates[1];
    }
    forall a | 0 <= a < |candidates| ensures candidates[a] == i {
      assert candidates[a] in candidates;
    }
  }

  lemma HoldsStep(ps: seq<Parameter>, cells: seq<Cell>, p: Parameter)
    ensures forall k :: HoldsCells(ps + [p], cells, k) <==>
              HoldsCells(ps, cells, k) || (IsDimmer(p) && PartKey(p.instance) == k && (p.cell != "" || p.virtual))
  {
    hide PartKey;
    var qs := ps + [p];
    assert qs[|ps|] == p;
    forall k | HoldsCells(ps, cells, k) ensures HoldsCells(qs, cells, k) {
      if i :| 0 <= i < |ps| && IsDimmer(ps[i]) && PartKey(ps[i].instance) == k && (ps[i].cell != "" || ps[i].virtual) {
        assert qs[i] == ps[i];
      }
    }
    forall k | HoldsCells(qs, cells, k)
      ensures HoldsCells(ps, cells, k) || (IsDimmer(p) && PartKey(p.instance) == k && (p.cell != "" || p.virtual))
    {
      if i :| 0 <= i < |qs| && IsDimmer(qs[i]) && PartKey(qs[i].instance) == k && (qs[i].cell != "" || qs[i].virtual) {
        if i < |ps| {
          assert ps[i] == qs[i];
        }
      }
    }
  }

  /** found lists the parts of ps, none of them the master yet. */
  ghost predicate IsGrouping(ps: seq<Parameter>, found: seq<Part>)
  {
    |found| == |PartKeys(ps)| &&
    forall j :: 0 <= j < |found| ==> found[j] == Part(PartKeys(ps)[j], false, DimmersOf(ps, PartKeys(ps)[j]), false)
  }

  ghost predicate Indexes(found: seq<Part>, idx: map<string, nat>)
  {
    (forall j :: 0 <= j < |found| ==> found[j].key in idx) &&
    forall k :: k in idx ==> idx[k] < |found| && found[idx[k]].key == k
  }

  /** One more channel leaves the keys of the others, and their dimmers, as they were. */
  lemma KeysStep(ps: seq<Parameter>, p: Parameter)
    ensures PartKeys(ps + [p]) == if IsDimmer(p) && PartKey(p.instance) !in PartKeys(ps) then PartKeys(ps) + [PartKey(p.instance)] else PartKeys(ps)
    ensures forall k :: DimmersOf(ps + [p], k) == DimmersOf(ps, k) + if IsDimmer(p) && PartKey(p.instance) == k then [p.offset] else []
    ensures IsDimmer(p) && PartKey(p.instance) !in PartKeys(ps) ==> DimmersOf(ps, PartKey(p.instance)) == []
    ensures forall i, j :: 0 <= i < j < |PartKeys(ps)| ==> PartKeys(ps)[i] != PartKeys(ps)[j]
  {
    hide PartKey;
    assert (ps + [p])[..|ps|] == ps;
    KeysDistinct(ps);
  }

  /** One more channel adds its offset to its part, which it opens when it is the first. */
  lemma GroupStep(ps: seq<Parameter>, p: Parameter, found: seq<Part>, idx: map<string, nat>)
    requires IsGrouping(ps, found) && Indexes(found, idx)
    ensures !IsDimmer(p) ==> IsGrouping(ps + [p], found)
    ensures var k := PartKey(p.instance);
            IsDimmer(p) && k !in idx ==>
              IsGrouping(ps + [p], found + [Part(k, false, [p.offset], false)]) &&
              Indexes(found + [Part(k, false, [p.offset], false)], idx[k := |found|])
    ensures var k := PartKey(p.instance);
            IsDimmer(p) && k in idx ==>
              idx[k] < |found| &&
              IsGrouping(ps + [p], found[idx[k] := found[idx[k]].(dimmers := found[idx[k]].dimmers + [p.offset])]) &&
              Indexes(found[idx[k] := found[idx[k]].(dimmers := found[idx[k]].dimmers + [p.offset])], idx)
  {
    KeysStep(ps, p);
    hide PartKey, PartKeys, DimmersOf;
    var key := PartKey(p.instance);
    if key in idx {
      assert PartKeys(ps)[idx[key]] == key;
    } else {
      assert key !in PartKeys(ps);
    }
  }

  lemma {:induction false} KeysDistinct(ps: seq<Parameter>)
    ensures forall i, j :: 0 <= i < j < |PartKeys(ps)| ==> PartKeys(ps)[i] != PartKeys(ps)[j]
    ensures forall k :: k in PartKeys(ps) <==> exists i :: 0 <= i < |ps| && IsDimmer(ps[i]) && PartKey(ps[i].instance) == k
    ensures forall k :: k !in PartKeys(ps) ==> DimmersOf(ps, k) == []
  {
    hide PartKey;
    if ps != [] {
      var init := ps[..|ps| - 1];
      KeysDistinct(init);
      forall k ensures k in PartKeys(ps) <==> exists i :: 0 <= i < |ps| && IsDimmer(ps[i]) && PartKey(ps[i].instance) == k {
        if k in PartKeys(init) {
          var i :| 0 <= i < |init| && IsDimmer(init[i]) && PartKey(init[i].instance) == k;
          assert ps[i] == init[i];
        }
        if exists i :: 0 <= i < |ps| && IsDimmer(ps[i]) && PartKey(ps[i].instance) == k {
          var i :| 0 <= i < |ps| && IsDimmer(ps[i]) && PartKey(ps[i].instance) == k;
          if i < |init| {
            assert init[i] == ps[i];
          }
        }
      }
    }
  }

  lemma OwnVirtualIs(ps: seq<Parameter>)
    ensures var sc := ScopeOf(ps, "");
            OwnVirtual(ps) == if !sc.dimmer && sc.r && sc.g && sc.b then [VirtualDimmer(sc, "", VIRTUAL_DIMMER_OFFSET)] else []
  {
    hide ScopeOf, VirtualDimmer, HasRealDimmer;
  }

  lemma Joined(ps: seq<Parameter>, cells: seq<Cell>)
    ensures WithVirtuals(ps, cells) == ps + (OwnVirtual(ps) + CellVirtuals(ps, cells)) && CellVirtuals(ps, cells[..0]) == []
  {
    hide OwnVirtual;
    assert ps + (OwnVirtual(ps) + CellVirtuals(ps, cells)) == ps + OwnVirtual(ps) + CellVirtuals(ps, cells);
  }

  /** What the i-th cell adds to the virtual dimmers. */
  lemma CellVirtualStep(ps: seq<Parameter>, cells: seq<Cell>, i: nat)
    requires i < |cells|
    ensures var c := cells[i];
            var sc := ScopeOf(ps, c.id);
            CellVirtuals(ps, cells[..i + 1]) == CellVirtuals(ps, cells[..i]) +
              if !sc.dimmer && sc.r && sc.g && sc.b && !(c.id != "" && HasRealDimmer(ps, PartKey(c.id)))
              then [VirtualDimmer(sc, c.id, SyntheticOffset(c.index))] else []
  {
    hide ScopeOf, HasRealDimmer, VirtualDimmer, PartKey;
    assert cells[..i + 1][..i] == cells[..i];
  }

  lemma RealDimmerStep(ps: seq<Parameter>, p: Parameter)
    ensures forall k :: HasRealDimmer(ps + [p], k) <==> HasRealDimmer(ps, k) || (IsDimmer(p) && !p.virtual && PartKey(p.instance) == k)
  {
    hide PartKey;
    var qs := ps + [p];
    assert qs[|ps|] == p;
    forall k | HasRealDimmer(ps, k) ensures HasRealDimmer(qs, k) {
      var i :| 0 <= i < |ps| && IsDimmer(ps[i]) && !ps[i].virtual && PartKey(ps[i].instance) == k;
      assert qs[i] == ps[i];
    }
    forall k | HasRealDimmer(qs, k) ensures HasRealDimmer(ps, k) || (IsDimmer(p) && !p.virtual && PartKey(p.instance) == k) {
      var i :| 0 <= i < |qs| && IsDimmer(qs[i]) && !qs[i].virtual && PartKey(qs[i].instance) == k;
      if i < |ps| {
        assert ps[i] == qs[i];
      }
    }
  }
}
