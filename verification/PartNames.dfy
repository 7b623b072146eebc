/** Which part of a fixture a geometry belongs to, told by the letters of its name, and which part is the
    fixture's master, told by its channels. */
module PartNames {
  import opened Prelude
  import opened GeometryTree
  import opened ChannelMap
  import opened ParameterModel
  import opened FixtureModels
  import opened Dimming
  import opened SoftwareMaster
  import opened VirtualDimmers

  // ---------------------------------------------------------------- the geometry of an instance

  /** An instance's geometry is what stands before the last colon of its name, or all of it. */
  lemma GeometryNameIs(inst: string)
    ensures ':' !in inst ==> GeometryName(inst) == inst
    ensures forall i :: 0 <= i < |inst| && inst[i] == ':' && ':' !in inst[i + 1..] ==> GeometryName(inst) == inst[..i]
  {
    forall i | 0 <= i < |inst| && inst[i] == ':' && ':' !in inst[i + 1..] ensures GeometryName(inst) == inst[..i] {
      LastColon(inst[..i], inst[i + 1..]);
      assert inst == inst[..i] + ":" + inst[i + 1..];
    }
  }

  // ---------------------------------------------------------------- the first word that is not a number

  predicate Splits(c: char)
  {
    c in {' ', '_', '-'}
  }

  /** c is no letter of a name: a separator or a digit. */
  predicate Nameless(c: char)
  {
    Splits(c) || '0' <= c <= '9'
  }

  /** s[a..b] is a whole word of s, not a number, and the first such. */
  predicate FirstNamed(s: string, a: nat, b: nat)
  {
    a < b <= |s| && (a > 0 ==> Splits(s[a - 1])) && (b < |s| ==> Splits(s[b])) &&
    (forall i :: a <= i < b ==> !Splits(s[i])) && (exists i :: a <= i < b && !Nameless(s[i])) &&
    forall i :: 0 <= i < a ==> Nameless(s[i])
  }

  /** s in lower case. */
  function Lowered(s: string): string
  {
    seq(|s|, i requires 0 <= i < |s| => if 'A' <= s[i] <= 'Z' then s[i] - 'A' + 'a' else s[i])
  }

  lemma {:induction false} LowerIs(s: string)
    ensures Lower(s) == Lowered(s)
  {
    if s != "" {
      LowerIs(s[1..]);
    }
  }

  /** s has a letter of a name in it. */
  ghost predicate Names(s: string)
  {
    exists i :: 0 <= i < |s| && !Nameless(s[i])
  }

  lemma WordEnds(cur: string)
    ensures FirstWord(Fields("", cur)) == if AllDigits(cur) then "" else cur
  {}

  lemma WordSplits(s: string, cur: string)
    requires s != "" && Splits(s[0])
    ensures FirstWord(Fields(s, cur)) == if AllDigits(cur) then FirstWord(Fields(s[1..], "")) else cur
  {
    var rest := Fields(s[1..], "");
    assert ([cur] + rest)[1..] == rest && [] + rest == rest;
  }

  lemma WordGoesOn(s: string, cur: string)
    requires s != "" && !Splits(s[0])
    ensures Fields(s, cur) == Fields(s[1..], cur + [s[0]])
  {}

  /** A word that has a letter of a name is read to its end. */
  lemma {:induction false} ReadsOn(s: string, from: nat, n: nat) returns (b: nat)
    requires from <= n <= |s| && (forall i :: from <= i < n ==> !Splits(s[i])) && !AllDigits(s[from..n])
    ensures n <= b <= |s| && (b < |s| ==> Splits(s[b])) && forall i :: from <= i < b ==> !Splits(s[i])
    ensures FirstWord(Fields(s[n..], s[from..n])) == s[from..b]
    decreases |s| - n
  {
    hide FirstWord, Fields;
    b := n;
    var cur := s[from..n];
    if n == |s| {
      WordEnds(cur);
      assert s[n..] == "";
    } else if Splits(s[n]) {
      WordSplits(s[n..], cur);
    } else {
      WordGoesOn(s[n..], cur);
      assert s[n..][1..] == s[n + 1..] && cur + [s[n]] == s[from..n + 1];
      assert forall i :: 0 <= i < |cur| ==> s[from..n + 1][i] == cur[i];
      b := ReadsOn(s, from, n + 1);
    }
  }

  lemma SomeLetter(s: string, from: nat, n: nat)
    requires from <= n <= |s| && forall i :: from <= i < n ==> !Splits(s[i])
    ensures AllDigits(s[from..n]) <==> forall i :: from <= i < n ==> Nameless(s[i])
  {
    forall i | from <= i < n ensures s[i] == s[from..n][i - from] {}
    if AllDigits(s[from..n]) {
    } else {
      var i :| 0 <= i < n - from && !('0' <= s[from..n][i] <= '9');
      assert !Nameless(s[from + i]);
    }
  }

  /** Nothing before n names a part; from the word begun at from, the first named word of s, if there is one. */
  lemma {:induction false} Reads(s: string, from: nat, n: nat) returns (a: nat, b: nat)
    requires from <= n <= |s| && (from > 0 ==> Splits(s[from - 1])) && (forall i :: from <= i < n ==> !Splits(s[i]))
    requires forall i :: 0 <= i < n ==> Nameless(s[i])
    ensures if Names(s) then FirstNamed(s, a, b) && FirstWord(Fields(s[n..], s[from..n])) == s[a..b]
            else FirstWord(Fields(s[n..], s[from..n])) == ""
    decreases |s| - n
  {
    hide FirstWord, Fields, AllDigits, FirstNamed;
    a, b := from, n;
    var cur := s[from..n];
    SomeLetter(s, from, n);
    if n == |s| {
      WordEnds(cur);
      assert s[n..] == "";
    } else if Splits(s[n]) {
      WordSplits(s[n..], cur);
      assert s[n..][1..] == s[n + 1..] && s[n + 1..n + 1] == "";
      a, b := Reads(s, n + 1, n + 1);
    } else {
      WordGoesOn(s[n..], cur);
      assert s[n..][1..] == s[n + 1..] && cur + [s[n]] == s[from..n + 1];
      SomeLetter(s, from, n + 1);
      if Nameless(s[n]) {
        a, b := Reads(s, from, n + 1);
      } else {
        b := ReadsOn(s, from, n + 1);
        FirstHere(s, from, n, b);
      }
    }
  }

  lemma FirstHere(s: string, from: nat, n: nat, b: nat)
    requires from <= n < b <= |s| && (from > 0 ==> Splits(s[from - 1])) && (b < |s| ==> Splits(s[b]))
    requires (forall i :: from <= i < b ==> !Splits(s[i])) && !Nameless(s[n]) && forall i :: 0 <= i < n ==> Nameless(s[i])
    ensures FirstNamed(s, from, b) && Names(s)
  {}

  /** A geometry belongs to the part named by the first word of its name that is not a number, in lower
      case, or to the nameless part where there is none. */
  lemma PartKeyIs(inst: string) returns (a: nat, b: nat)
    ensures var name := GeometryName(inst);
            if Names(name) then FirstNamed(name, a, b) && PartKey(inst) == Lowered(name[a..b])
            else PartKey(inst) == ""
  {
    var name := GeometryName(inst);
    a, b := Reads(name, 0, 0);
    assert name[0..] == name && name[0..0] == "";
    LowerIs(FirstWord(Fields(name, "")));
  }

  // ---------------------------------------------------------------- cells

  /** A channel on geometry instance inst has this attribute. */
  ghost predicate Carries(ps: seq<Parameter>, inst: string, attribute: string)
  {
    exists i :: 0 <= i < |ps| && ps[i].instance == inst && ps[i].attribute == attribute
  }

  ghost predicate Alike(ps: seq<Parameter>, inst: string, other: string)
  {
    forall a :: Carries(ps, inst, a) <==> Carries(ps, other, a)
  }

  ghost predicate HasChannel(ps: seq<Parameter>, inst: string)
  {
    inst != "" && exists i :: 0 <= i < |ps| && ps[i].instance == inst
  }

  /** A cell is an instance of which another has the same attributes; its channels are marked with it, no
      others are, and the cells are numbered from 1 as they first come up. */
  lemma CellsAre(ps: seq<Parameter>, inst: string)
    ensures IsCell(ps, inst) <==> HasChannel(ps, inst) && exists other :: HasChannel(ps, other) && other != inst && Alike(ps, inst, other)
    ensures (exists k :: 0 <= k < |CellsOf(ps)| && CellsOf(ps)[k].id == inst) <==> IsCell(ps, inst)
    ensures forall k :: 0 <= k < |CellsOf(ps)| ==> CellsOf(ps)[k].index == k + 1
    ensures forall i :: 0 <= i < |ps| ==> WithCells(ps)[i].cell == if IsCell(ps, ps[i].instance) then ps[i].instance else ""
  {
    InstancesAre(ps);
    CellsListed(ps, |ps|);
    assert ps[..|ps|] == ps;
    forall other ensures SameAttributes(ps, inst, other) <==> Alike(ps, inst, other) {
      SameIsAlike(ps, inst, other);
    }
    hide Alike, SameAttributes, HasChannel;
    if IsCell(ps, inst) {
      var k :| 0 <= k < |CellIds(ps, |ps|)| && CellIds(ps, |ps|)[k] == inst;
      assert CellsOf(ps)[k].id == inst;
    }
    if k :| 0 <= k < |CellsOf(ps)| && CellsOf(ps)[k].id == inst {
      assert CellIds(ps, |ps|)[k] == inst;
    }
  }

  lemma InstancesAre(ps: seq<Parameter>)
    ensures forall inst :: inst in Instances(ps) <==> HasChannel(ps, inst)
  {}

  lemma SameIsAlike(ps: seq<Parameter>, inst: string, other: string)
    ensures SameAttributes(ps, inst, other) <==> Alike(ps, inst, other)
  {
    forall i, a ensures a in AttributesOf(ps, i) <==> Carries(ps, i, a) {}
    hide Carries;
    if Alike(ps, inst, other) {
      assert AttributesOf(ps, inst) == AttributesOf(ps, other);
    }
  }

  // ---------------------------------------------------------------- the parts of a finished model

  /** Parameter i is an intensity parameter on a geometry of part key. */
  predicate DimmerAt(m: Model, i: int, key: string)
  {
    0 <= i < |m.parameters| && m.parameters[i].attribute == "Dimmer" && !m.parameters[i].master && PartKey(m.parameters[i].instance) == key
  }

  /** Part key has cells: a cell's geometry, or a dimmer of a cell, or a virtual one. */
  ghost predicate Celled(m: Model, key: string)
  {
    (exists k :: 0 <= k < |m.cells| && PartKey(m.cells[k].id) == key) ||
    exists i :: DimmerAt(m, i, key) && (m.parameters[i].cell != "" || m.parameters[i].virtual)
  }

  lemma BaseUnmastered(cfs: ChannelMap, footprint: uint16, ps: seq<Parameter>, raw: seq<uint16>)
    requires SharedOut(cfs, footprint, ps, raw)
    ensures forall i :: 0 <= i < |Base(ps)| ==> !Base(ps)[i].master
  {
    BuiltChannels(cfs, footprint, ps, raw);
    BaseFacts(ps);
  }

  ghost predicate HasPart(m: Model, key: string)
  {
    exists j :: 0 <= j < |m.parts| && m.parts[j].key == key
  }

  ghost predicate HasDimmer(m: Model, key: string)
  {
    exists i :: DimmerAt(m, i, key)
  }

  ghost predicate HasDimmerOffset(m: Model, key: string, o: uint16)
  {
    exists i :: DimmerAt(m, i, key) && m.parameters[i].offset == o
  }

  /** The parts are those of the intensity parameters, each once, with the offsets of those. One alone is governed
      by no master. */
  lemma PartsAre(cfs: ChannelMap, footprint: uint16, ps: seq<Parameter>, raw: seq<uint16>, tree: Option<Tree>, m: Model)
    requires Modelled(cfs, footprint, ps, raw, tree, m)
    ensures forall key :: HasPart(m, key) <==> HasDimmer(m, key)
    ensures |m.parts| == 1 ==> !m.parts[0].governed
    ensures forall j, l :: 0 <= j < l < |m.parts| ==> m.parts[j].key != m.parts[l].key
    ensures forall j, o :: 0 <= j < |m.parts| ==> (o in m.parts[j].dimmers <==> HasDimmerOffset(m, m.parts[j].key, o))
  {
    BaseBehind(ps, raw, tree, m);
    BaseUnmastered(cfs, footprint, ps, raw);
    PartsBehind(ps, raw, tree, m);
    KeysAre(Base(ps));
    hide PartKey, Base, PartKeys, Derived, Modelled, HasDimmer, HasDimmerOffset, Finishes;
    forall key ensures HasPart(m, key) <==> HasDimmer(m, key) {
      SameDimmers(Base(ps), m, key);
      assert key in PartKeys(Base(ps)) <==> HasPart(m, key);
    }
    forall j, o | 0 <= j < |m.parts| ensures o in m.parts[j].dimmers <==> HasDimmerOffset(m, m.parts[j].key, o) {
      DimmersAre(Base(ps), m.parts[j].key, o);
      SameDimmers(Base(ps), m, m.parts[j].key);
    }
  }

  predicate InBase(base: seq<Parameter>, i: int, key: string)
  {
    0 <= i < |base| && IsDimmer(base[i]) && PartKey(base[i].instance) == key
  }

  ghost predicate BaseDimmer(base: seq<Parameter>, key: string)
  {
    exists i :: InBase(base, i, key)
  }

  ghost predicate BaseOffset(base: seq<Parameter>, key: string, o: uint16)
  {
    exists i :: InBase(base, i, key) && base[i].offset == o
  }

  lemma SameDimmers(base: seq<Parameter>, m: Model, key: string)
    requires Finishes(base, m.parameters) && forall i :: 0 <= i < |base| ==> !base[i].master
    ensures forall i :: DimmerAt(m, i, key) <==> InBase(base, i, key)
    ensures forall i :: InBase(base, i, key) ==> SameButInner(m.parameters[i], base[i])
    ensures HasDimmer(m, key) <==> BaseDimmer(base, key)
    ensures forall o :: HasDimmerOffset(m, key, o) <==> BaseOffset(base, key, o)
  {
    hide PartKey;
    forall i ensures DimmerAt(m, i, key) <==> InBase(base, i, key) {}
    forall o ensures HasDimmerOffset(m, key, o) <==> BaseOffset(base, key, o) {
      if i :| InBase(base, i, key) && base[i].offset == o {
        assert DimmerAt(m, i, key);
      }
    }
  }

  lemma LastDimmer(ps: seq<Parameter>, key: string, o: uint16)
    requires ps != []
    ensures var init, n := ps[..|ps| - 1], |ps| - 1;
            (BaseDimmer(ps, key) <==> BaseDimmer(init, key) || InBase(ps, n, key)) &&
            (BaseOffset(ps, key, o) <==> BaseOffset(init, key, o) || (InBase(ps, n, key) && ps[n].offset == o))
  {
    hide PartKey;
    var init := ps[..|ps| - 1];
    forall i | 0 <= i < |init| ensures InBase(ps, i, key) <==> InBase(init, i, key) {}
    if i :| InBase(init, i, key) {
      assert InBase(ps, i, key);
    }
    if i :| InBase(init, i, key) && init[i].offset == o {
      assert InBase(ps, i, key);
    }
  }

  lemma {:induction false} KeysAre(ps: seq<Parameter>)
    ensures forall key :: key in PartKeys(ps) <==> BaseDimmer(ps, key)
    ensures forall j, l :: 0 <= j < l < |PartKeys(ps)| ==> PartKeys(ps)[j] != PartKeys(ps)[l]
  {
    hide PartKey, BaseDimmer;
    if ps != [] {
      KeysAre(ps[..|ps| - 1]);
      forall key ensures key in PartKeys(ps) <==> BaseDimmer(ps, key) {
        LastDimmer(ps, key, 0);
      }
    } else {
      NoDimmers();
    }
  }

  lemma NoDimmers()
    ensures forall key :: !BaseDimmer([], key)
  {}

  lemma {:induction false} DimmersAre(ps: seq<Parameter>, key: string, o: uint16)
    ensures o in DimmersOf(ps, key) <==> BaseOffset(ps, key, o)
  {
    hide PartKey;
    if ps != [] {
      DimmersAre(ps[..|ps| - 1], key, o);
      LastDimmer(ps, key, o);
    }
  }

  /** The parts of a finished model but for their governed flags. */
  lemma PartsBehind(ps: seq<Parameter>, raw: seq<uint16>, tree: Option<Tree>, m: Model)
    requires Derived(ps, raw, tree, m)
    ensures var parts := PartsOf(Base(ps), CellsOf(ps));
            m.cells == CellsOf(ps) && |m.parts| == |parts| && |parts| == |PartKeys(Base(ps))| &&
            forall j :: 0 <= j < |parts| ==> m.parts[j].key == PartKeys(Base(ps))[j] && m.parts[j].dimmers == DimmersOf(Base(ps), m.parts[j].key) &&
                                             (m.parts[j].master <==> IsMasterKey(Base(ps), CellsOf(ps), m.parts[j].key)) &&
                                             (|parts| == 1 ==> !m.parts[j].governed)
  {}

  /** A part is the fixture's master exactly when it has no cells, and is the only such part or the only
      one of them named for a body geometry. */
  lemma MasterPartIs(cfs: ChannelMap, footprint: uint16, ps: seq<Parameter>, raw: seq<uint16>, tree: Option<Tree>, m: Model, j: nat)
    requires Modelled(cfs, footprint, ps, raw, tree, m) && j < |m.parts|
    ensures m.parts[j].master <==>
              !Celled(m, m.parts[j].key) &&
              ((forall l :: 0 <= l < |m.parts| && l != j ==> Celled(m, m.parts[l].key)) ||
               (m.parts[j].key in {"", "base", "body", "head", "yoke", "main"} &&
                forall l :: 0 <= l < |m.parts| && l != j ==> Celled(m, m.parts[l].key) || m.parts[l].key !in {"", "base", "body", "head", "yoke", "main"}))
  {
    BaseBehind(ps, raw, tree, m);
    BaseUnmastered(cfs, footprint, ps, raw);
    PartsBehind(ps, raw, tree, m);
    PartsAre(cfs, footprint, ps, raw, tree, m);
    hide PartKey, Base, PartKeys, Derived, Modelled, HoldsCells, Celled;
    forall key ensures HoldsCells(Base(ps), CellsOf(ps), key) <==> Celled(m, key) {
      SameCelled(Base(ps), m, key);
    }
    MasterAmong(Base(ps), m, j);
  }

  lemma SameCelled(base: seq<Parameter>, m: Model, key: string)
    requires Finishes(base, m.parameters) && forall i :: 0 <= i < |base| ==> !base[i].master
    ensures HoldsCells(base, m.cells, key) <==> Celled(m, key)
  {
    SameDimmers(base, m, key);
    hide PartKey, DimmerAt;
    if i :| InBase(base, i, key) && (base[i].cell != "" || base[i].virtual) {
      assert DimmerAt(m, i, key);
    }
  }

  lemma MasterAmong(base: seq<Parameter>, m: Model, j: nat)
    requires j < |m.parts| && |PartKeys(base)| == |m.parts| && forall l :: 0 <= l < |m.parts| ==> m.parts[l].key == PartKeys(base)[l]
    requires forall i, l :: 0 <= i < l < |m.parts| ==> m.parts[i].key != m.parts[l].key
    ensures IsMasterKey(base, m.cells, m.parts[j].key) <==>
              !HoldsCells(base, m.cells, m.parts[j].key) &&
              ((forall l :: 0 <= l < |m.parts| && l != j ==> HoldsCells(base, m.cells, m.parts[l].key)) ||
               (m.parts[j].key in {"", "base", "body", "head", "yoke", "main"} &&
                forall l :: 0 <= l < |m.parts| && l != j ==> HoldsCells(base, m.cells, m.parts[l].key) || m.parts[l].key !in {"", "base", "body", "head", "yoke", "main"}))
  {
    hide PartKeys, HoldsCells;
    var ks := PartKeys(base);
    assert forall k :: k in ks <==> exists l :: 0 <= l < |m.parts| && m.parts[l].key == k;
  }

  /** A fixture of several parts has a software master, the last of its parameters and a dimmer of 0 to 255 for
      all of it, off the DMX bytes, at 0xFE00; any other fixture has none. */
  lemma SoftwareMasterIs(cfs: ChannelMap, footprint: uint16, ps: seq<Parameter>, raw: seq<uint16>, tree: Option<Tree>, m: Model)
    requires Modelled(cfs, footprint, ps, raw, tree, m)
    ensures forall i :: 0 <= i < |m.parameters| ==> (m.parameters[i].master <==> |m.parts| >= 2 && i == |m.parameters| - 1)
    ensures |m.parts| >= 2 ==>
              |m.parameters| > 0 && var v := m.parameters[|m.parameters| - 1];
              v.offset == 0xFE00 && v.offsets == [] && v.byteCount == 1 && v.max == 255 && v.attribute == "Dimmer" && v.instance == "" && v.cell == "" &&
              v.virtual && v.virtualOf == [] && !v.inner
  {
    BaseUnmastered(cfs, footprint, ps, raw);
    BaseBehind(ps, raw, tree, m);
    LastIsMaster(ps, raw, tree, m);
    hide *;
    forall i | 0 <= i < |m.parameters| ensures m.parameters[i].master <==> |m.parts| >= 2 && i == |m.parameters| - 1 {
      if i < |Base(ps)| {
        BaseAt(Base(ps), m.parameters, i);
      }
    }
  }

  lemma BaseAt(base: seq<Parameter>, all: seq<Parameter>, i: nat)
    requires Finishes(base, all) && i < |base|
    ensures all[i].master == base[i].master
  {}

  lemma LastIsMaster(ps: seq<Parameter>, raw: seq<uint16>, tree: Option<Tree>, m: Model)
    requires Derived(ps, raw, tree, m)
    ensures |m.parts| < 2 ==> |m.parameters| == |Base(ps)|
    ensures |m.parts| >= 2 ==>
              |m.parameters| == |Base(ps)| + 1 && var v := m.parameters[|m.parameters| - 1];
              v.offset == 0xFE00 && v.offsets == [] && v.byteCount == 1 && v.max == 255 && v.attribute == "Dimmer" && v.instance == "" && v.cell == "" &&
              v.virtual && v.virtualOf == [] && !v.inner && v.master
  {
    hide PartKey, MasterTargets, PartKeys;
  }
}
