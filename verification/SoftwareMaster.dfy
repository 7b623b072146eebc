/** The software master: which channels it multiplies, and how often the fixture's master level, the
    master channel on the fixture and the software master together, dims an emitter. */
module SoftwareMaster {
  import opened Prelude
  import opened GeometryTree
  import opened ChannelMap
  import opened ParameterModel
  import opened FixtureModels
  import opened Dimming

  // ---------------------------------------------------------------- the target list

  lemma {:induction false} ScopeAdditive(ps: seq<Parameter>, cell: string)
    ensures forall o :: o in ScopeOf(ps, cell).additive <==>
              exists i :: 0 <= i < |ps| && ps[i].cell == cell && IsAdditive(ps[i].attribute) && ps[i].offset == o
    ensures SortedByOffset(ps) ==> NoRepeat(ScopeOf(ps, cell).additive)
  {
    hide IsAdditive;
    if ps != [] {
      var n := |ps| - 1;
      var qs := ps[..n];
      assert forall i :: 0 <= i < n ==> qs[i] == ps[i];
      ScopeAdditive(qs, cell);
      var was, now := ScopeOf(qs, cell).additive, ScopeOf(ps, cell).additive;
      assert now == was + if ps[n].cell == cell && IsAdditive(ps[n].attribute) then [ps[n].offset] else [];
      hide ScopeOf;
      forall o ensures o in now <==> exists i :: 0 <= i < |ps| && ps[i].cell == cell && IsAdditive(ps[i].attribute) && ps[i].offset == o {
        if o in was {
          var i :| 0 <= i < n && qs[i].cell == cell && IsAdditive(qs[i].attribute) && qs[i].offset == o;
          assert ps[i].offset == o;
        }
      }
      if SortedByOffset(ps) {
        forall o | o in was ensures o != ps[n].offset {
          var i :| 0 <= i < n && qs[i].cell == cell && IsAdditive(qs[i].attribute) && qs[i].offset == o;
          assert ps[i].offset == o;
        }
        assert SortedByOffset(qs) && NoRepeat(was);
        forall a, b | 0 <= a < b < |now| ensures now[a] != now[b] {
          assert was[a] in was;
        }
      }
    }
  }

  /** What the software master would multiply of two intensity parameters never overlaps. */
  ghost predicate TargetsApart(ps: seq<Parameter>)
  {
    (forall i :: 0 <= i < |ps| && IsDimmer(ps[i]) ==> NoRepeat(TargetsOf(ps[i]))) &&
    forall i, j, o :: 0 <= i < j < |ps| && IsDimmer(ps[i]) && IsDimmer(ps[j]) && o in TargetsOf(ps[i]) ==> o !in TargetsOf(ps[j])
  }

  /** o is a channel of celled: the dimmer itself when v is none, else a colour of v's scope. */
  lemma TargetIsChannel(celled: seq<Parameter>, base: seq<Parameter>, i: nat, o: uint16) returns (c: nat)
    requires ChannelsThenVirtuals(celled, base) && i < |base| && IsDimmer(base[i]) && o in TargetsOf(base[i])
    requires forall k :: 0 <= k < |celled| ==> !celled[k].virtual
    ensures c < |celled| && celled[c].offset == o
    ensures i < |celled| ==> c == i
    ensures i >= |celled| ==> celled[c].cell == base[i].cell && celled[c].attribute != "Dimmer"
  {
    if i < |celled| {
      c := i;
      assert base[..|celled|][i] == celled[i];
    } else {
      assert FromScope(celled, base[i]);
      ScopeAdditive(celled, base[i].cell);
      c :| 0 <= c < |celled| && celled[c].cell == base[i].cell && IsAdditive(celled[c].attribute) && celled[c].offset == o;
      assert !IsAdditive("Dimmer");
    }
  }

  lemma OneOffset(ps: seq<Parameter>, c: nat, d: nat)
    requires SortedByOffset(ps) && c < |ps| && d < |ps| && ps[c].offset == ps[d].offset
    ensures c == d
  {}

  lemma OwnTargetsApart(celled: seq<Parameter>, base: seq<Parameter>, i: nat)
    requires ChannelsThenVirtuals(celled, base) && SortedByOffset(celled) && i < |base| && IsDimmer(base[i])
    requires forall k :: 0 <= k < |celled| ==> !celled[k].virtual
    ensures NoRepeat(TargetsOf(base[i]))
  {
    if i < |celled| {
      assert base[..|celled|][i] == celled[i];
    } else {
      assert FromScope(celled, base[i]);
      ScopeAdditive(celled, base[i].cell);
    }
  }

  lemma BaseTargetsApart(celled: seq<Parameter>, base: seq<Parameter>)
    requires ChannelsThenVirtuals(celled, base) && SortedByOffset(celled)
    requires forall k :: 0 <= k < |celled| ==> !celled[k].virtual
    ensures TargetsApart(base)
  {
    hide IsAdditive, ScopeOf, PartKey, TargetsOf;
    forall i | 0 <= i < |base| && IsDimmer(base[i]) ensures NoRepeat(TargetsOf(base[i])) {
      OwnTargetsApart(celled, base, i);
    }
    forall i, j, o | 0 <= i < j < |base| && IsDimmer(base[i]) && IsDimmer(base[j]) && o in TargetsOf(base[i]) ensures o !in TargetsOf(base[j]) {
      if o in TargetsOf(base[j]) {
        var c := TargetIsChannel(celled, base, i, o);
        var d := TargetIsChannel(celled, base, j, o);
        OneOffset(celled, c, d);
      }
    }
  }

  lemma {:induction false} PartTargetsExact(ps: seq<Parameter>, key: string)
    ensures forall o :: o in PartTargets(ps, key) <==> exists i :: 0 <= i < |ps| && InPart(ps[i], key) && o in TargetsOf(ps[i])
    ensures TargetsApart(ps) ==> NoRepeat(PartTargets(ps, key))
  {
    hide PartKey, TargetsOf;
    if ps != [] {
      var n := |ps| - 1;
      var qs := ps[..n];
      assert forall i :: 0 <= i < n ==> qs[i] == ps[i];
      PartTargetsExact(qs, key);
      var was, now := PartTargets(qs, key), PartTargets(ps, key);
      assert now == was + if InPart(ps[n], key) then TargetsOf(ps[n]) else [];
      hide PartTargets;
      forall o ensures o in now <==> exists i :: 0 <= i < |ps| && InPart(ps[i], key) && o in TargetsOf(ps[i]) {
        if o in was {
          var i :| 0 <= i < n && InPart(qs[i], key) && o in TargetsOf(qs[i]);
          assert InPart(ps[i], key);
        }
      }
      if TargetsApart(ps) {
        assert TargetsApart(qs);
        if InPart(ps[n], key) {
          forall o | o in was ensures o !in TargetsOf(ps[n]) {
            var i :| 0 <= i < n && InPart(qs[i], key) && o in TargetsOf(qs[i]);
            assert IsDimmer(ps[i]);
          }
          JoinNoRepeat(was, TargetsOf(ps[n]));
        }
      }
    }
  }

  lemma JoinNoRepeat(s: seq<uint16>, t: seq<uint16>)
    requires NoRepeat(s) && NoRepeat(t) && forall o :: o in s ==> o !in t
    ensures NoRepeat(s + t)
  {
    forall i, j | 0 <= i < j < |s + t| ensures (s + t)[i] != (s + t)[j] {
      if i < |s| <= j {
        assert s[i] in s && t[j - |s|] in t;
      }
    }
  }

  /** The i-th parameter is an intensity of one of the first n parts the master does not govern, not
      inner, and o is what dims it: its own channel, or a colour channel of a virtual dimmer. */
  ghost predicate Multiplies(ps: seq<Parameter>, parts: seq<Part>, tree: Option<Tree>, n: nat, i: nat, o: uint16)
    requires n <= |parts| && i < |ps|
  {
    (exists j :: 0 <= j < n && !IsGoverned(ps, parts, tree, parts[j]) && InPart(ps[i], parts[j].key)) && o in TargetsOf(ps[i])
  }

  lemma {:induction false} MasterTargetsExact(ps: seq<Parameter>, parts: seq<Part>, tree: Option<Tree>, n: nat)
    requires n <= |parts| && TargetsApart(ps)
    requires forall i, j :: 0 <= i < j < |parts| ==> parts[i].key != parts[j].key
    ensures forall o :: o in MasterTargets(ps, parts, tree, n) <==> exists i :: 0 <= i < |ps| && Multiplies(ps, parts, tree, n, i, o)
    ensures NoRepeat(MasterTargets(ps, parts, tree, n))
  {
    hide PartKey, TargetsOf, IsGoverned, PartTargets;
    if n > 0 {
      MasterTargetsExact(ps, parts, tree, n - 1);
      var key := parts[n - 1].key;
      PartTargetsExact(ps, key);
      var was, now := MasterTargets(ps, parts, tree, n - 1), MasterTargets(ps, parts, tree, n);
      var added := if IsGoverned(ps, parts, tree, parts[n - 1]) then [] else PartTargets(ps, key);
      assert now == was + added;
      hide MasterTargets;
      forall o ensures o in now <==> exists i :: 0 <= i < |ps| && Multiplies(ps, parts, tree, n, i, o) {
        if o in was {
          var i :| 0 <= i < |ps| && Multiplies(ps, parts, tree, n - 1, i, o);
          assert Multiplies(ps, parts, tree, n, i, o);
        } else if o in added {
          var i :| 0 <= i < |ps| && InPart(ps[i], key) && o in TargetsOf(ps[i]);
          assert Multiplies(ps, parts, tree, n, i, o);
        }
        if i :| 0 <= i < |ps| && Multiplies(ps, parts, tree, n, i, o) {
          var j :| 0 <= j < n && !IsGoverned(ps, parts, tree, parts[j]) && InPart(ps[i], parts[j].key);
          if j < n - 1 {
            assert Multiplies(ps, parts, tree, n - 1, i, o);
          }
        }
      }
      forall o | o in was ensures o !in added {
        var i :| 0 <= i < |ps| && Multiplies(ps, parts, tree, n - 1, i, o);
      }
      JoinNoRepeat(was, added);
    }
  }

  /** An inner dimmer is no target; any other parameter keeps its targets when inner ones are marked. */
  lemma InnerTargetsApart(base: seq<Parameter>, tree: Option<Tree>)
    requires TargetsApart(base) && Unmarked(base)
    ensures TargetsApart(WithInner(base, tree))
  {
    hide IsInner;
    var all := WithInner(base, tree);
    forall i | 0 <= i < |all| ensures TargetsOf(all[i]) == if all[i].inner then [] else TargetsOf(base[i]) {
      assert all[i] == base[i].(inner := IsInner(base, tree, base[i]));
    }
    forall i, j, o | 0 <= i < j < |all| && IsDimmer(all[i]) && IsDimmer(all[j]) && o in TargetsOf(all[i]) ensures o !in TargetsOf(all[j]) {
      assert o in TargetsOf(base[i]) && IsDimmer(base[i]) && IsDimmer(base[j]);
    }
  }

  /** All intensity parameters but the software master itself. */
  function WithoutMaster(m: Model): seq<Parameter>
    requires |m.parameters| > 0
  {
    m.parameters[..|m.parameters| - 1]
  }

  /** The parameter list before inner dimmers are marked, and the parts before any is governed. */
  function Base(ps: seq<Parameter>): seq<Parameter>
  {
    WithVirtuals(WithCells(ps), CellsOf(ps))
  }

  function BaseParts(ps: seq<Parameter>): seq<Part>
  {
    PartsOf(Base(ps), CellsOf(ps))
  }

  lemma BuiltChannels(cfs: ChannelMap, footprint: uint16, ps: seq<Parameter>, raw: seq<uint16>)
    requires SharedOut(cfs, footprint, ps, raw)
    ensures SortedByOffset(ps) && Unmarked(ps)
    ensures forall i :: 0 <= i < |ps| ==> !ps[i].virtual
  {
    forall i | 0 <= i < |ps| ensures !ps[i].virtual && !ps[i].master && !ps[i].inner {
      assert ps[i] in ps;
    }
  }

  lemma BaseFacts(ps: seq<Parameter>)
    requires SortedByOffset(ps) && Unmarked(ps) && forall i :: 0 <= i < |ps| ==> !ps[i].virtual
    ensures Unmarked(Base(ps)) && TargetsApart(Base(ps)) && ChannelsThenVirtuals(WithCells(ps), Base(ps))
  {
    var celled := WithCells(ps);
    VirtualsShape(ps);
    CellVirtualsFresh(celled, CellsOf(ps));
    assert Unmarked(celled) && SortedByOffset(celled) && forall i :: 0 <= i < |celled| ==> !celled[i].virtual;
    BaseTargetsApart(celled, Base(ps));
  }

  lemma PartsFacts(ps: seq<Parameter>)
    ensures forall i, j :: 0 <= i < j < |BaseParts(ps)| ==> BaseParts(ps)[i].key != BaseParts(ps)[j].key
  {
    KeysDistinct(Base(ps));
  }

  /** What the software master of m multiplies. */
  function SoftwareTargets(m: Model): seq<uint16>
    requires |m.parameters| > 0
  {
    m.parameters[|m.parameters| - 1].masterOf
  }

  /** m's software master should multiply o: o is the channel of an outermost dimmer, or a colour of an
      outermost virtual dimmer, of a part the master does not govern. */
  ghost predicate ShouldMultiply(m: Model, i: nat, o: uint16)
    requires |m.parameters| > 0 && i < |m.parameters| - 1
  {
    o in TargetsOf(m.parameters[i]) &&
    exists j :: 0 <= j < |m.parts| && !m.parts[j].governed && InPart(m.parameters[i], m.parts[j].key)
  }

  lemma SamePlan(all: seq<Parameter>, parts: seq<Part>, tree: Option<Tree>, m: Model, i: nat, o: uint16)
    requires |m.parameters| > 0 && WithoutMaster(m) == all && m.parts == WithGoverned(all, parts, tree) && i < |all|
    ensures ShouldMultiply(m, i, o) <==> Multiplies(all, parts, tree, |parts|, i, o)
  {
    hide TargetsOf, PartKey, IsGoverned;
    assert m.parameters[i] == all[i];
    if Multiplies(all, parts, tree, |parts|, i, o) {
      var j :| 0 <= j < |parts| && !IsGoverned(all, parts, tree, parts[j]) && InPart(all[i], parts[j].key);
      assert !m.parts[j].governed && InPart(m.parameters[i], m.parts[j].key);
    }
    if ShouldMultiply(m, i, o) {
      var j :| 0 <= j < |m.parts| && !m.parts[j].governed && InPart(m.parameters[i], m.parts[j].key);
      assert !IsGoverned(all, parts, tree, parts[j]) && InPart(all[i], parts[j].key);
    }
  }

  lemma PlanBehind(ps: seq<Parameter>, raw: seq<uint16>, tree: Option<Tree>, m: Model)
    requires Derived(ps, raw, tree, m) && |m.parts| >= 2
    ensures |m.parameters| > 0 && WithoutMaster(m) == WithInner(Base(ps), tree)
    ensures m.parts == WithGoverned(WithoutMaster(m), BaseParts(ps), tree)
    ensures m.parameters[|m.parameters| - 1].master && SoftwareTargets(m) == MasterTargets(WithoutMaster(m), BaseParts(ps), tree, |BaseParts(ps)|)
  {
    hide WithVirtuals, PartsOf, WithCells, CellsOf, WithInner, MasterTargets, IsGoverned;
  }

  /** The software master multiplies, each once, the outermost dimmer channels and the colours of the
      outermost virtual dimmers of exactly the parts the master does not govern. */
  lemma SoftwareMasterTargets(ps: seq<Parameter>, raw: seq<uint16>, tree: Option<Tree>, m: Model)
    requires SortedByOffset(ps) && Unmarked(ps) && forall i :: 0 <= i < |ps| ==> !ps[i].virtual
    requires Derived(ps, raw, tree, m) && |m.parts| >= 2
    ensures |m.parameters| > 0 && NoRepeat(SoftwareTargets(m))
    ensures forall o :: o in SoftwareTargets(m) <==> exists i :: 0 <= i < |m.parameters| - 1 && ShouldMultiply(m, i, o)
  {
    PlanBehind(ps, raw, tree, m);
    var all, parts := WithoutMaster(m), BaseParts(ps);
    BaseFacts(ps);
    PartsFacts(ps);
    InnerTargetsApart(Base(ps), tree);
    MasterTargetsExact(all, parts, tree, |parts|);
    hide Base, BaseParts, WithInner, MasterTargets, WithGoverned, Multiplies, ShouldMultiply, NoRepeat, SoftwareTargets, Derived;
    forall o ensures o in SoftwareTargets(m) <==> exists i :: 0 <= i < |all| && ShouldMultiply(m, i, o) {
      forall i | 0 <= i < |all| ensures ShouldMultiply(m, i, o) <==> Multiplies(all, parts, tree, |parts|, i, o) {
        SamePlan(all, parts, tree, m, i, o);
      }
    }
  }

  // ---------------------------------------------------------------- how often the master dims

  /** A dimmer channel's offset is multiplied on behalf of that channel only. */
  ghost predicate OwnTargets(ps: seq<Parameter>)
  {
    forall i, j :: 0 <= i < |ps| && 0 <= j < |ps| && IsDimmer(ps[i]) && !ps[i].virtual && IsDimmer(ps[j]) && ps[i].offset in TargetsOf(ps[j]) ==>
      i == j
  }

  lemma BaseOwnTargets(ps: seq<Parameter>)
    requires SortedByOffset(ps) && Unmarked(ps) && forall i :: 0 <= i < |ps| ==> !ps[i].virtual
    ensures OwnTargets(Base(ps))
  {
    var celled, base := WithCells(ps), Base(ps);
    VirtualsShape(ps);
    assert SortedByOffset(celled) && forall i :: 0 <= i < |celled| ==> !celled[i].virtual;
    hide PartKey, Base, WithCells, TargetsOf;
    forall i, j | 0 <= i < |base| && 0 <= j < |base| && IsDimmer(base[i]) && !base[i].virtual && IsDimmer(base[j]) && base[i].offset in TargetsOf(base[j])
      ensures i == j
    {
      var c := TargetIsChannel(celled, base, j, base[i].offset);
      assert i < |celled| by {
        assert i >= |celled| ==> FromScope(celled, base[i]);
      }
      assert base[..|celled|][i] == celled[i];
      OneOffset(celled, c, i);
    }
  }

  lemma InnerOwnTargets(base: seq<Parameter>, tree: Option<Tree>)
    requires OwnTargets(base)
    ensures OwnTargets(WithInner(base, tree))
  {
    hide IsInner;
    var all := WithInner(base, tree);
    forall i, j | 0 <= i < |all| && 0 <= j < |all| && IsDimmer(all[i]) && !all[i].virtual && IsDimmer(all[j]) && all[i].offset in TargetsOf(all[j])
      ensures i == j
    {
      assert base[i].offset in TargetsOf(base[j]);
    }
  }

  /** How many master channels the light on path passes under. */
  ghost function MasterPasses(ps: seq<Parameter>, parts: seq<Part>, path: seq<string>): nat
  {
    if ps == [] then 0
    else MasterPasses(ps[..|ps| - 1], parts, path) + if IsMasterChannel(parts, ps[|ps| - 1]) && ps[|ps| - 1].instance in path then 1 else 0
  }

  lemma {:induction false} CountSoftware(ps: seq<Parameter>, key: string, path: seq<string>, targets: seq<uint16>, listed: bool)
    requires forall i :: 0 <= i < |ps| && Dims(ps[i], key, path) ==> (ps[i].offset in targets <==> listed && !ps[i].inner)
    ensures SoftwarePasses(ps, key, path, targets) == if listed then Outermost(ps, key, path) else 0
  {
    hide Dims;
    if ps != [] {
      var qs := ps[..|ps| - 1];
      assert forall i :: 0 <= i < |qs| ==> qs[i] == ps[i];
      CountSoftware(qs, key, path, targets, listed);
    }
  }

  lemma {:induction false} PassesSome(ps: seq<Parameter>, parts: seq<Part>, path: seq<string>)
    requires exists i :: 0 <= i < |ps| && IsMasterChannel(parts, ps[i]) && ps[i].instance in path
    ensures MasterPasses(ps, parts, path) >= 1
  {
    hide IsMasterChannel;
    var qs := ps[..|ps| - 1];
    var i :| 0 <= i < |ps| && IsMasterChannel(parts, ps[i]) && ps[i].instance in path;
    if i < |qs| {
      assert qs[i] == ps[i];
      PassesSome(qs, parts, path);
    }
  }

  /** A dimmer that counts as under the master has a master channel above it on every path through it. */
  lemma GovernedPasses(ps: seq<Parameter>, parts: seq<Part>, tree: Tree, path: seq<string>, k: nat)
    requires IsPath(tree, path) && |path| <= CLIMB_LIMIT && k < |path|
    requires UnderMaster(ps, parts, Some(tree), path[k])
    ensures MasterPasses(ps, parts, path) >= 1
  {
    PathSuffix(tree, path, k);
    ClimbsSeePath(tree, path[k..], MasterGeometries(ps, parts));
    hide IsMasterChannel;
    var j :| 0 <= j < |path[k..]| && path[k..][j] in MasterGeometries(ps, parts);
    var i :| 0 <= i < |ps| && IsMasterChannel(parts, ps[i]) && ps[i].instance == path[k..][j];
    assert path[k + j] == ps[i].instance;
    PassesSome(ps, parts, path);
  }

  /** Whether the software master multiplies a dimmer channel: its part is not governed and it is not inner. */
  lemma DimmerTargeted(m: Model, i: nat, j: nat)
    requires |m.parameters| > 0 && i < |m.parameters| - 1 && j < |m.parts|
    requires forall o :: o in SoftwareTargets(m) <==> exists i :: 0 <= i < |m.parameters| - 1 && ShouldMultiply(m, i, o)
    requires OwnTargets(WithoutMaster(m)) && forall a, b :: 0 <= a < b < |m.parts| ==> m.parts[a].key != m.parts[b].key
    requires InPart(m.parameters[i], m.parts[j].key) && !m.parameters[i].virtual
    ensures m.parameters[i].offset in SoftwareTargets(m) <==> !m.parts[j].governed && !m.parameters[i].inner
  {
    hide PartKey;
    var all, o := WithoutMaster(m), m.parameters[i].offset;
    assert all[i] == m.parameters[i];
    if o in SoftwareTargets(m) {
      var i' :| 0 <= i' < |m.parameters| - 1 && ShouldMultiply(m, i', o);
      var j' :| 0 <= j' < |m.parts| && !m.parts[j'].governed && InPart(m.parameters[i'], m.parts[j'].key);
      assert all[i'] == m.parameters[i'];
      assert IsDimmer(all[i']) && all[i].offset in TargetsOf(all[i']);
    } else {
      assert !ShouldMultiply(m, i, o);
    }
  }

  /** What holds of every finished model of several parts. */
  ghost predicate WellModelled(m: Model, tree: Option<Tree>)
  {
    |m.parameters| > 0 && InnerMarked(WithoutMaster(m), tree) && PartsPure(WithoutMaster(m)) && OwnTargets(WithoutMaster(m)) &&
    (forall a, b :: 0 <= a < b < |m.parts| ==> m.parts[a].key != m.parts[b].key) &&
    (forall o :: o in SoftwareTargets(m) <==> exists i :: 0 <= i < |m.parameters| - 1 && ShouldMultiply(m, i, o)) &&
    forall j :: 0 <= j < |m.parts| && !m.parts[j].master ==> GovernedRight(m, tree, j)
  }

  /** The governed flag of a part says whether all its dimmers are under the master channel. */
  ghost predicate GovernedRight(m: Model, tree: Option<Tree>, j: nat)
    requires |m.parameters| > 0 && j < |m.parts|
  {
    m.parts[j].governed <==> forall i :: 0 <= i < |WithoutMaster(m)| && InPart(WithoutMaster(m)[i], m.parts[j].key) ==>
      UnderMaster(WithoutMaster(m), m.parts, tree, WithoutMaster(m)[i].instance)
  }

  lemma BuiltWell(ps: seq<Parameter>, raw: seq<uint16>, tree: Option<Tree>, m: Model)
    requires SortedByOffset(ps) && Unmarked(ps) && forall i :: 0 <= i < |ps| ==> !ps[i].virtual
    requires Derived(ps, raw, tree, m) && |m.parts| >= 2
    ensures WellModelled(m, tree)
  {
    PlanBehind(ps, raw, tree, m);
    SoftwareMasterTargets(ps, raw, tree, m);
    BaseOwnTargets(ps);
    InnerOwnTargets(Base(ps), tree);
    BuiltInnerMarked(ps, raw, tree, m);
    BuiltPure(ps, raw, tree, m);
    PartKeysDistinct(ps, tree, m);
    hide Derived, SortedByOffset, Unmarked, Base, BaseParts, MasterTargets, ShouldMultiply, SoftwareTargets, OwnTargets, InnerMarked, PartsPure, GovernedRight, WithInner, WithoutMaster, IsGoverned, WithGoverned;
    DropMaster(m, tree);
    forall j | 0 <= j < |m.parts| && !m.parts[j].master ensures GovernedRight(m, tree, j) {
      GovernedInModel(BaseParts(ps), tree, m, j);
    }
  }

  lemma PartKeysDistinct(ps: seq<Parameter>, tree: Option<Tree>, m: Model)
    requires |m.parameters| > 0 && m.parts == WithGoverned(WithoutMaster(m), BaseParts(ps), tree)
    ensures forall a, b :: 0 <= a < b < |m.parts| ==> m.parts[a].key != m.parts[b].key
  {
    PartsFacts(ps);
    hide BaseParts, IsGoverned, WithoutMaster;
  }

  lemma DropMaster(m: Model, tree: Option<Tree>)
    requires |m.parameters| > 0 && m.parameters[|m.parameters| - 1].master
    requires InnerMarked(m.parameters, tree) && PartsPure(m.parameters)
    ensures InnerMarked(WithoutMaster(m), tree) && PartsPure(WithoutMaster(m))
  {
    hide PartKey, Holders, StrictlyUnder;
    var all := WithoutMaster(m);
    assert forall i :: 0 <= i < |all| ==> all[i] == m.parameters[i];
    forall i | 0 <= i < |all| ensures all[i].inner <==> IsInner(all, tree, all[i]) {
      SameHolders(all, m.parameters, PartKey(all[i].instance));
    }
  }

  lemma GovernedInModel(parts: seq<Part>, tree: Option<Tree>, m: Model, j: nat)
    requires |m.parameters| > 0 && m.parts == WithGoverned(WithoutMaster(m), parts, tree) && j < |m.parts| && !m.parts[j].master
    ensures GovernedRight(m, tree, j)
  {
    hide PartKey, AtOrUnder, WithoutMaster;
    var all := WithoutMaster(m);
    assert m.parts[j].governed <==> IsGoverned(all, parts, tree, parts[j]);
    forall key ensures MasterHas(m.parts, key) <==> MasterHas(parts, key) {
      if i :| 0 <= i < |parts| && parts[i].master && parts[i].key == key {
        assert m.parts[i].master && m.parts[i].key == key;
      }
      if i :| 0 <= i < |m.parts| && m.parts[i].master && m.parts[i].key == key {
        assert parts[i].master && parts[i].key == key;
      }
    }
    SameMasters(all, parts, m.parts, tree);
  }

  lemma SameMasters(ps: seq<Parameter>, parts: seq<Part>, parts': seq<Part>, tree: Option<Tree>)
    requires forall key :: MasterHas(parts', key) <==> MasterHas(parts, key)
    ensures forall inst :: UnderMaster(ps, parts', tree, inst) <==> UnderMaster(ps, parts, tree, inst)
  {
    hide MasterHas, AtOrUnder, PartKey;
    assert forall i :: 0 <= i < |ps| ==> IsMasterChannel(parts', ps[i]) == IsMasterChannel(parts, ps[i]);
    assert MasterGeometries(ps, parts') == MasterGeometries(ps, parts);
  }

  /** How often light below a dimmer channel of part j passes the master channels and the software master. */
  lemma PassesOfPart(tree: Tree, m: Model, j: nat, path: seq<string>)
    requires WellModelled(m, Some(tree)) && j < |m.parts| && !m.parts[j].master
    requires IsPath(tree, path) && |path| <= CLIMB_LIMIT
    requires exists i :: 0 <= i < |WithoutMaster(m)| && Dims(WithoutMaster(m)[i], m.parts[j].key, path)
    ensures var all, key := WithoutMaster(m), m.parts[j].key;
            var hard, soft := MasterPasses(all, m.parts, path), SoftwarePasses(all, key, path, SoftwareTargets(m));
            hard + soft >= 1 && (m.parts[j].governed ==> hard >= 1) &&
            soft == (if m.parts[j].governed then 0 else Outermost(all, key, path)) &&
            Outermost(all, key, path) >= 1 && (OnePerGeometry(all, key) ==> Outermost(all, key, path) == 1)
  {
    var all, key := WithoutMaster(m), m.parts[j].key;
    hide PartKey, ShouldMultiply, SoftwareTargets, UnderMaster, InnerMarked, PartsPure, OwnTargets;
    forall i | 0 <= i < |all| && Dims(all[i], key, path)
      ensures all[i].offset in SoftwareTargets(m) <==> !m.parts[j].governed && !all[i].inner
    {
      DimmerTargeted(m, i, j);
    }
    CountSoftware(all, key, path, SoftwareTargets(m), !m.parts[j].governed);
    OutermostSome(all, tree, key, path);
    if m.parts[j].governed {
      var i :| 0 <= i < |all| && Dims(all[i], key, path);
      var k :| 0 <= k < |path| && path[k] == all[i].instance;
      assert GovernedRight(m, Some(tree), j);
      GovernedPasses(all, m.parts, tree, path, k);
    }
  }

  lemma OutermostSome(ps: seq<Parameter>, tree: Tree, key: string, path: seq<string>)
    requires InnerMarked(ps, Some(tree)) && PartsPure(ps) && IsPath(tree, path) && |path| <= CLIMB_LIMIT
    requires exists i :: 0 <= i < |ps| && Dims(ps[i], key, path)
    ensures Outermost(ps, key, path) >= 1
    ensures OnePerGeometry(ps, key) ==> Outermost(ps, key, path) == 1
  {
    var top := OutermostGeometry(ps, tree, key, path);
    CountAt(ps, key, path, top);
  }
}
