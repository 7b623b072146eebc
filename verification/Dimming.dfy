/** What the parameter model means for light. An emitter's light passes under every dimmer channel
    whose geometry is on the path from the emitter to the top of the fixture; a virtual dimmer scales
    the colours of its own scope and nothing else. */
module Dimming {
  import opened Prelude
  import opened GeometryTree
  import opened ChannelMap
  import opened ParameterModel
  import opened FixtureModels

  /** Two levels one behind the other. */
  function Product(x: real, y: real): real
  {
    x * y
  }

  function Power(x: real, n: nat): real
  {
    if n == 0 then 1.0 else x * Power(x, n - 1)
  }

  // ---------------------------------------------------------------- facts of a built model

  /** Exactly the parameters that lie under another dimmer of their part are marked inner. */
  ghost predicate InnerMarked(ps: seq<Parameter>, tree: Option<Tree>)
  {
    forall i :: 0 <= i < |ps| ==> (ps[i].inner <==> IsInner(ps, tree, ps[i]))
  }

  /** Rewriting flags, or adding the software master, moves no dimmer. */
  lemma SameHolders(ps: seq<Parameter>, qs: seq<Parameter>, key: string)
    requires |ps| <= |qs|
    requires forall i :: 0 <= i < |ps| ==> InPart(qs[i], key) == InPart(ps[i], key) && qs[i].instance == ps[i].instance
    requires forall i :: |ps| <= i < |qs| ==> qs[i].master
    ensures Holders(qs, key) == Holders(ps, key)
  {
    hide PartKey;
    forall g ensures g in Holders(qs, key) <==> g in Holders(ps, key) {
      if g in Holders(ps, key) {
        var i :| 0 <= i < |ps| && InPart(ps[i], key) && ps[i].instance != "" && ps[i].instance == g;
        assert InPart(qs[i], key);
      }
      if g in Holders(qs, key) {
        var i :| 0 <= i < |qs| && InPart(qs[i], key) && qs[i].instance != "" && qs[i].instance == g;
        assert InPart(ps[i], key);
      }
    }
  }

  ghost predicate Unmarked(ps: seq<Parameter>)
  {
    forall i :: 0 <= i < |ps| ==> !ps[i].inner && !ps[i].master
  }

  lemma {:induction false} CellVirtualsFresh(ps: seq<Parameter>, cells: seq<Cell>)
    ensures Unmarked(CellVirtuals(ps, cells))
  {
    if cells != [] {
      CellVirtualsFresh(ps, cells[..|cells| - 1]);
    }
  }

  /** MarkInnerDimmers decides against the list it finds; the finished model agrees with it. */
  lemma BuiltInnerMarked(ps: seq<Parameter>, raw: seq<uint16>, tree: Option<Tree>, m: Model)
    requires Derived(ps, raw, tree, m) && Unmarked(ps)
    ensures InnerMarked(m.parameters, tree)
  {
    var celled := WithCells(ps);
    var cells := CellsOf(ps);
    var base := WithVirtuals(celled, cells);
    CellVirtualsFresh(celled, cells);
    assert Unmarked(base);
    var all := WithInner(base, tree);
    hide WithVirtuals, PartsOf, MasterTargets, WithGoverned, CellsOf, WithCells, PartKey, Holders, StrictlyUnder;
    assert all <= m.parameters && forall i :: |all| <= i < |m.parameters| ==> m.parameters[i].master && !m.parameters[i].inner;
    hide WithInner, VirtualMaster, Derived;
    StillInner(base, tree, m.parameters);
  }

  /** Marking decides against the list before the software master joins it, and holds of the list with it. */
  lemma StillInner(base: seq<Parameter>, tree: Option<Tree>, ps: seq<Parameter>)
    requires Unmarked(base) && WithInner(base, tree) <= ps
    requires forall i :: |base| <= i < |ps| ==> ps[i].master && !ps[i].inner
    ensures InnerMarked(ps, tree)
  {
    hide PartKey, Holders, StrictlyUnder;
    forall i | 0 <= i < |ps| ensures ps[i].inner <==> IsInner(ps, tree, ps[i]) {
      if i < |base| {
        assert ps[i] == WithInner(base, tree)[i];
        SameHolders(base, ps, PartKey(ps[i].instance));
      }
    }
  }

  /** No part holds both a cell's virtual dimmer and a dimmer channel. */
  ghost predicate PartsPure(ps: seq<Parameter>)
  {
    forall i, j :: 0 <= i < |ps| && 0 <= j < |ps| && IsDimmer(ps[i]) && IsDimmer(ps[j]) && !ps[i].master && !ps[j].master &&
                   ps[i].virtual && !ps[j].virtual && ps[i].instance != "" ==>
      PartKey(ps[i].instance) != PartKey(ps[j].instance)
  }

  /** Where the virtual dimmers come from: one per scope that wants one. */
  ghost predicate FromScope(ps: seq<Parameter>, v: Parameter)
  {
    v == VirtualDimmer(ScopeOf(ps, v.cell), v.cell, v.offset) && WantsVirtual(ps, v.cell)
  }

  lemma ScopeMakesVirtual(ps: seq<Parameter>, c: Cell)
    ensures WantsVirtual(ps, c.id) ==> FromScope(ps, VirtualDimmer(ScopeOf(ps, c.id), c.id, SyntheticOffset(c.index)))
  {}

  predicate OfCells(cells: seq<Cell>, cell: string)
  {
    exists i :: 0 <= i < |cells| && cells[i].id == cell
  }

  lemma OneMoreCell(cells: seq<Cell>, cell: string)
    requires cells != []
    ensures OfCells(cells, cell) <==> OfCells(cells[..|cells| - 1], cell) || cell == cells[|cells| - 1].id
  {
    var init := cells[..|cells| - 1];
    if i :| 0 <= i < |cells| && cells[i].id == cell {
      assert i < |init| ==> init[i] == cells[i];
    }
  }

  lemma {:induction false} CellVirtualsFromScopes(ps: seq<Parameter>, cells: seq<Cell>)
    ensures forall v :: v in CellVirtuals(ps, cells) ==> FromScope(ps, v) && OfCells(cells, v.cell)
  {
    hide ScopeOf, WantsVirtual, FromScope, OfCells;
    if cells != [] {
      var init, c := cells[..|cells| - 1], cells[|cells| - 1];
      CellVirtualsFromScopes(ps, init);
      ScopeMakesVirtual(ps, c);
      forall v | v in CellVirtuals(ps, cells) ensures OfCells(cells, v.cell) {
        OneMoreCell(cells, v.cell);
      }
    }
  }

  lemma {:induction false} CellVirtualsApart(ps: seq<Parameter>, cells: seq<Cell>)
    requires forall i, j :: 0 <= i < j < |cells| ==> cells[i].id != cells[j].id
    ensures forall i, j :: 0 <= i < j < |CellVirtuals(ps, cells)| ==> CellVirtuals(ps, cells)[i].cell != CellVirtuals(ps, cells)[j].cell
  {
    hide ScopeOf, WantsVirtual;
    if cells != [] {
      var init, c := cells[..|cells| - 1], cells[|cells| - 1];
      CellVirtualsApart(ps, init);
      CellVirtualsFromScopes(ps, init);
    }
  }

  /** The parameter list before inner dimmers are marked: the channels, then virtual dimmers of
      different scopes. */
  ghost predicate ChannelsThenVirtuals(celled: seq<Parameter>, base: seq<Parameter>)
  {
    |celled| <= |base| && base[..|celled|] == celled &&
    (forall i :: |celled| <= i < |base| ==> FromScope(celled, base[i])) &&
    forall i, j :: |celled| <= i < j < |base| ==> base[i].cell != base[j].cell
  }

  lemma VirtualsShape(ps: seq<Parameter>)
    ensures ChannelsThenVirtuals(WithCells(ps), WithVirtuals(WithCells(ps), CellsOf(ps)))
  {
    var celled, cells := WithCells(ps), CellsOf(ps);
    hide FromScope;
    CellsListed(ps, |ps|);
    CellVirtualsFromScopes(celled, cells);
    CellVirtualsApart(celled, cells);
    forall i | 0 <= i < |cells| ensures cells[i].id != "" {
      assert cells[i].id in CellIds(ps, |ps|);
    }
    OwnFromScope(celled);
    hide ScopeOf, CellVirtuals, CellsOf, WithCells, WantsVirtual, CellIds;
    var own, cv := OwnVirtual(celled), CellVirtuals(celled, cells);
    assert forall v :: v in cv ==> v.cell != "";
  }

  lemma OwnFromScope(ps: seq<Parameter>)
    ensures |OwnVirtual(ps)| <= 1 && forall v :: v in OwnVirtual(ps) ==> FromScope(ps, v) && v.cell == ""
  {}

  lemma BuiltPure(ps: seq<Parameter>, raw: seq<uint16>, tree: Option<Tree>, m: Model)
    requires Derived(ps, raw, tree, m) && forall i :: 0 <= i < |ps| ==> !ps[i].virtual
    ensures PartsPure(m.parameters)
  {
    var celled := WithCells(ps);
    var base := WithVirtuals(celled, CellsOf(ps));
    VirtualsShape(ps);
    assert forall i :: 0 <= i < |celled| ==> !celled[i].virtual;
    hide PartKey, ScopeOf, MasterTargets, WithGoverned, PartsOf, CellsOf, WithVirtuals, WithCells;
    PureBefore(celled, base);
    forall i, j | 0 <= i < |m.parameters| && 0 <= j < |m.parameters| && IsDimmer(m.parameters[i]) && IsDimmer(m.parameters[j]) &&
                  !m.parameters[i].master && !m.parameters[j].master && m.parameters[i].virtual && !m.parameters[j].virtual && m.parameters[i].instance != ""
      ensures PartKey(m.parameters[i].instance) != PartKey(m.parameters[j].instance)
    {
      assert i < |base| && j < |base|;
      assert IsDimmer(base[i]) && IsDimmer(base[j]);
    }
  }

  lemma PureBefore(celled: seq<Parameter>, base: seq<Parameter>)
    requires ChannelsThenVirtuals(celled, base) && forall i :: 0 <= i < |celled| ==> !celled[i].virtual
    ensures PartsPure(base)
  {
    hide PartKey, ScopeOf;
    forall i, j | 0 <= i < |base| && 0 <= j < |base| && IsDimmer(base[i]) && IsDimmer(base[j]) &&
                  base[i].virtual && !base[j].virtual && base[i].instance != ""
      ensures PartKey(base[i].instance) != PartKey(base[j].instance)
    {
      assert base[..|celled|][j] == celled[j] && FromScope(celled, base[i]);
    }
  }

  // ---------------------------------------------------------------- one dimming inside a part

  /** q is a dimmer channel of part key that the light on path passes under. */
  predicate Dims(q: Parameter, key: string, path: seq<string>)
  {
    InPart(q, key) && !q.virtual && q.instance in path
  }

  /** What p, at level own, lets through of the light on path, as a dimmer channel of the part. */
  ghost function Lets(p: Parameter, own: real, key: string, path: seq<string>): real
  {
    if Dims(p, key, path) then own else 1.0
  }

  /** The share of the light on path that the part's dimmer channels let through. */
  ghost function Through(ps: seq<Parameter>, key: string, path: seq<string>, level: int -> real): real
  {
    if ps == [] then 1.0
    else
      var n := |ps| - 1;
      Product(Through(ps[..n], key, path, level), Lets(ps[n], level(n), key, path))
  }

  /** How many of the part's dimmer channels on path are not inner. */
  ghost function Outermost(ps: seq<Parameter>, key: string, path: seq<string>): nat
  {
    if ps == [] then 0
    else
      var n := |ps| - 1;
      Outermost(ps[..n], key, path) + if Dims(ps[n], key, path) && !ps[n].inner then 1 else 0
  }

  /** A part's dimmers on path at the part's level, the inner ones held at full. */
  ghost predicate PartAt(ps: seq<Parameter>, key: string, path: seq<string>, level: int -> real, l: real)
  {
    forall i :: 0 <= i < |ps| && Dims(ps[i], key, path) ==> level(i) == if ps[i].inner then 1.0 else l
  }

  lemma {:induction false} ThroughPower(ps: seq<Parameter>, key: string, path: seq<string>, level: int -> real, l: real)
    requires PartAt(ps, key, path, level, l)
    ensures Through(ps, key, path, level) == Power(l, Outermost(ps, key, path))
  {
    hide Dims;
    if ps != [] {
      var n := |ps| - 1;
      forall i | 0 <= i < n && Dims(ps[..n][i], key, path) ensures level(i) == if ps[..n][i].inner then 1.0 else l {
        assert ps[..n][i] == ps[i];
      }
      ThroughPower(ps[..n], key, path, level, l);
    }
  }

  /** At most one dimmer channel of the part at any geometry. */
  ghost predicate OnePerGeometry(ps: seq<Parameter>, key: string)
  {
    forall i, j :: 0 <= i < j < |ps| && InPart(ps[i], key) && InPart(ps[j], key) && !ps[i].virtual && !ps[j].virtual ==>
      ps[i].instance != ps[j].instance
  }

  /** The channels of Outermost are those at one geometry of the path. */
  lemma {:induction false} CountAt(ps: seq<Parameter>, key: string, path: seq<string>, top: string)
    requires forall i :: 0 <= i < |ps| && Dims(ps[i], key, path) ==> (ps[i].inner <==> ps[i].instance != top)
    ensures OnePerGeometry(ps, key) ==> Outermost(ps, key, path) <= 1
    ensures (exists i :: 0 <= i < |ps| && Dims(ps[i], key, path) && ps[i].instance == top) <==> Outermost(ps, key, path) >= 1
  {
    hide PartKey;
    if ps != [] {
      var n := |ps| - 1;
      var qs := ps[..n];
      assert forall i :: 0 <= i < n ==> qs[i] == ps[i];
      CountAt(qs, key, path, top);
    }
  }

  /** No double dimming inside a part. The light on a path below one of the part's dimmer channels is
      dimmed by the part's level once for every channel at the outermost of them, that is exactly once
      when no geometry carries two; the channels further in do not dim it again. */
  lemma DimmedOnce(ps: seq<Parameter>, tree: Tree, key: string, path: seq<string>, level: int -> real, l: real)
    requires InnerMarked(ps, Some(tree)) && PartsPure(ps) && IsPath(tree, path) && |path| <= CLIMB_LIMIT
    requires exists i :: 0 <= i < |ps| && Dims(ps[i], key, path)
    requires PartAt(ps, key, path, level, l)
    ensures Outermost(ps, key, path) >= 1
    ensures Through(ps, key, path, level) == Power(l, Outermost(ps, key, path))
    ensures OnePerGeometry(ps, key) ==> Through(ps, key, path, level) == l
  {
    hide *;
    var top := OutermostGeometry(ps, tree, key, path);
    CountAt(ps, key, path, top);
    ThroughPower(ps, key, path, level, l);
    PowerOne(l);
  }

  lemma PowerOne(l: real)
    ensures Power(l, 1) == l
  {
    assert Power(l, 1) == l * Power(l, 0);
  }

  lemma OutermostGeometry(ps: seq<Parameter>, tree: Tree, key: string, path: seq<string>) returns (top: string)
    requires InnerMarked(ps, Some(tree)) && PartsPure(ps) && IsPath(tree, path) && |path| <= CLIMB_LIMIT
    requires exists i :: 0 <= i < |ps| && Dims(ps[i], key, path)
    ensures exists i :: 0 <= i < |ps| && Dims(ps[i], key, path) && ps[i].instance == top
    ensures forall i :: 0 <= i < |ps| && Dims(ps[i], key, path) ==> (ps[i].inner <==> ps[i].instance != top)
  {
    hide PartKey, StrictlyUnder;
    PathNonEmpty(tree, path);
    var hs := Holders(ps, key);
    var j :| 0 <= j < |ps| && Dims(ps[j], key, path);
    var k :| 0 <= k < |path| && path[k] == ps[j].instance;
    assert path[k] in hs;
    var t := OutermostOnPath(tree, path, hs);
    top := path[t];
    var i :| 0 <= i < |ps| && InPart(ps[i], key) && ps[i].instance != "" && ps[i].instance == top;
    assert !ps[i].virtual && top in path;
    assert Dims(ps[i], key, path);
    forall i | 0 <= i < |ps| && Dims(ps[i], key, path) ensures ps[i].inner <==> ps[i].instance != top {
      var k :| 0 <= k < |path| && path[k] == ps[i].instance;
      assert path[k] in hs;
    }
  }

  // ---------------------------------------------------------------- dimming multiplied in software

  /** How many dimmer channels of part key, on path, the software master multiplies. */
  ghost function SoftwarePasses(ps: seq<Parameter>, key: string, path: seq<string>, targets: seq<uint16>): nat
  {
    if ps == [] then 0
    else
      var p := ps[|ps| - 1];
      SoftwarePasses(ps[..|ps| - 1], key, path, targets) + if Dims(p, key, path) && p.offset in targets then 1 else 0
  }

  /** What dimmer channel p of a part, at level own, lets through, multiplied by the software master, at
      level soft, where that lists it. */
  ghost function Share(p: Parameter, own: real, key: string, path: seq<string>, targets: seq<uint16>, soft: real): real
  {
    if !Dims(p, key, path) then 1.0 else if p.offset in targets then own * soft else own
  }

  /** The share of the light that a part's dimmer channels on path let through. */
  ghost function ScaledThrough(ps: seq<Parameter>, key: string, path: seq<string>, level: int -> real, targets: seq<uint16>, soft: real): real
  {
    if ps == [] then 1.0
    else
      var n := |ps| - 1;
      Product(ScaledThrough(ps[..n], key, path, level, targets, soft), Share(ps[n], level(n), key, path, targets, soft))
  }

  /** The software master's share can be taken out: it dims once for every dimmer channel it lists. */
  lemma {:induction false} ScaledPower(ps: seq<Parameter>, key: string, path: seq<string>, level: int -> real, targets: seq<uint16>, soft: real)
    ensures ScaledThrough(ps, key, path, level, targets, soft) ==
              Product(Through(ps, key, path, level), Power(soft, SoftwarePasses(ps, key, path, targets)))
  {
    if ps != [] {
      var n := |ps| - 1;
      var init := ps[..n];
      hide Product, Lets, Share, Power, Dims;
      ScaledPower(init, key, path, level, targets, soft);
      PassesLast(ps, key, path, targets);
      PowerStep(soft, SoftwarePasses(init, key, path, targets));
      ShareStep(ps[n], level(n), key, path, targets, soft, Through(init, key, path, level), Power(soft, SoftwarePasses(init, key, path, targets)));
    }
  }

  lemma PassesLast(ps: seq<Parameter>, key: string, path: seq<string>, targets: seq<uint16>)
    requires ps != []
    ensures SoftwarePasses(ps, key, path, targets) ==
              SoftwarePasses(ps[..|ps| - 1], key, path, targets) + if Dims(ps[|ps| - 1], key, path) && ps[|ps| - 1].offset in targets then 1 else 0
  {
    hide Dims;
  }

  lemma ShareStep(p: Parameter, own: real, key: string, path: seq<string>, targets: seq<uint16>, soft: real, a: real, b: real)
    ensures Product(Product(a, b), Share(p, own, key, path, targets, soft)) ==
              Product(Product(a, Lets(p, own, key, path)), if Dims(p, key, path) && p.offset in targets then Product(soft, b) else b)
  {
    Regroup(a, b, own, soft);
  }

  lemma PowerStep(x: real, n: nat)
    ensures Power(x, n + 1) == Product(x, Power(x, n))
  {}

  lemma Regroup(a: real, b: real, x: real, y: real)
    ensures (a * b) * (x * y) == (a * x) * (y * b) && (a * b) * x == (a * x) * b
  {
    assert (a * b) * x == a * (b * x) == a * (x * b) == (a * x) * b;
    assert (a * b) * (x * y) == ((a * b) * x) * y == ((a * x) * b) * y == (a * x) * (b * y);
  }
}
