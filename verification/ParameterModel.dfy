/** The intensity half of a fixture's parameter model: cells, virtual dimmers, parts, inner dimmers
    and the software master, each derived from the channels the channel map was shared out into.
    The functions say what every step of FixtureModel makes of the parameter list. */
module ParameterModel {
  import opened Prelude
  import opened GeometryTree
  import opened ChannelMap

  const VIRTUAL_DIMMER_OFFSET: uint16 := 0xFF00
  const VIRTUAL_MASTER_OFFSET: uint16 := 0xFE00

  datatype Cell = Cell(id: string, index: nat)

  /** One intensity part: its dimmers in parameter order. A governed part is dimmed on the fixture by
      the master channel, any other is multiplied in software. */
  datatype Part = Part(key: string, master: bool, dimmers: seq<uint16>, governed: bool)

  datatype Model = Model(parameters: seq<Parameter>, cells: seq<Cell>, parts: seq<Part>, treeKnown: bool, rawOffsets: seq<uint16>)

  // ---------------------------------------------------------------- names

  function LastIndexOf(s: string, c: char): (i: int)
    ensures -1 <= i < |s|
    ensures i >= 0 ==> s[i] == c
  {
    if s == "" then -1 else if s[|s| - 1] == c then |s| - 1 else LastIndexOf(s[..|s| - 1], c)
  }

  /** The geometry of an instance: "Beam 1:0" is an instance of "Beam 1". */
  function GeometryName(inst: string): string
  {
    var i := LastIndexOf(inst, ':');
    if i >= 0 then inst[..i] else inst
  }

  predicate IsSeparator(c: char) { c == ' ' || c == '_' || c == '-' }

  /** The words of s after the word begun by cur. */
  function Fields(s: string, cur: string): seq<string>
  {
    if s == "" then (if cur == "" then [] else [cur])
    else if IsSeparator(s[0]) then (if cur == "" then [] else [cur]) + Fields(s[1..], "")
    else Fields(s[1..], cur + [s[0]])
  }

  predicate AllDigits(w: string)
  {
    forall i :: 0 <= i < |w| ==> '0' <= w[i] <= '9'
  }

  function FirstWord(ws: seq<string>): string
  {
    if ws == [] then "" else if AllDigits(ws[0]) then FirstWord(ws[1..]) else ws[0]
  }

  function Lower(s: string): string
  {
    if s == "" then "" else [if 'A' <= s[0] <= 'Z' then s[0] - 'A' + 'a' else s[0]] + Lower(s[1..])
  }

  /** The part a geometry belongs to: the first word of its name that is not a number, in lower case. */
  function PartKey(inst: string): string
  {
    Lower(FirstWord(Fields(GeometryName(inst), "")))
  }

  lemma {:induction false} LastColon(name: string, index: string)
    requires ':' !in index
    ensures LastIndexOf(name + ":" + index, ':') == |name|
    decreases |index|
  {
    var s := name + ":" + index;
    if index != "" {
      assert s[|s| - 1] == index[|index| - 1] && index[|index| - 1] in index;
      assert s[..|s| - 1] == name + ":" + index[..|index| - 1];
      LastColon(name, index[..|index| - 1]);
    } else {
      assert s[|s| - 1] == ':';
    }
  }

  /** Every instance of one geometry is in one part. */
  lemma InstancesShareAPart(name: string, index: string, index': string)
    requires ':' !in index && ':' !in index'
    ensures PartKey(name + ":" + index) == PartKey(name + ":" + index')
  {
    LastColon(name, index);
    LastColon(name, index');
    assert (name + ":" + index)[..|name|] == name && (name + ":" + index')[..|name|] == name;
  }

  // ---------------------------------------------------------------- cells

  predicate IsDimmer(p: Parameter) { p.attribute == "Dimmer" }

  function AttributesOf(ps: seq<Parameter>, inst: string): set<string>
  {
    set i | 0 <= i < |ps| && ps[i].instance == inst :: ps[i].attribute
  }

  function Instances(ps: seq<Parameter>): set<string>
  {
    set i | 0 <= i < |ps| && ps[i].instance != "" :: ps[i].instance
  }

  predicate SameAttributes(ps: seq<Parameter>, inst: string, other: string)
  {
    AttributesOf(ps, inst) == AttributesOf(ps, other)
  }

  /** A cell: a geometry instance whose attributes are also those of another instance. */
  predicate IsCell(ps: seq<Parameter>, inst: string)
  {
    inst in Instances(ps) && exists other :: other in Instances(ps) && other != inst && SameAttributes(ps, inst, other)
  }

  function WithCells(ps: seq<Parameter>): (qs: seq<Parameter>)
  {
    seq(|ps|, i requires 0 <= i < |ps| => ps[i].(cell := if IsCell(ps, ps[i].instance) then ps[i].instance else ""))
  }

  /** The cells among the first n channels, in the order of their first channels. */
  function CellIds(ps: seq<Parameter>, n: nat): seq<string>
    requires n <= |ps|
  {
    if n == 0 then []
    else
      var ids := CellIds(ps, n - 1);
      var inst := ps[n - 1].instance;
      if IsCell(ps, inst) && inst !in ids then ids + [inst] else ids
  }

  /** The cells, numbered from 1. */
  function CellsOf(ps: seq<Parameter>): seq<Cell>
  {
    var ids := CellIds(ps, |ps|);
    seq(|ids|, i requires 0 <= i < |ids| => Cell(ids[i], i + 1))
  }

  /** Every cell is listed once and nothing else is. */
  lemma {:induction false} CellsListed(ps: seq<Parameter>, n: nat)
    requires n <= |ps|
    ensures forall inst :: inst in CellIds(ps, n) <==> IsCell(ps, inst) && inst in Instances(ps[..n])
    ensures forall i, j :: 0 <= i < j < |CellIds(ps, n)| ==> CellIds(ps, n)[i] != CellIds(ps, n)[j]
  {
    if n > 0 {
      CellsListed(ps, n - 1);
      assert ps[..n] == ps[..n - 1] + [ps[n - 1]];
      InstancesStep(ps[..n - 1], ps[n - 1]);
    }
  }

  // ---------------------------------------------------------------- virtual dimmers

  predicate IsAdditive(attribute: string)
  {
    "ColorAdd_" <= attribute || "ColorRGB_" <= attribute
  }

  /** What one scope (the fixture's own channels, or one cell's) has. */
  datatype Scope = Scope(dimmer: bool, r: bool, g: bool, b: bool, additive: seq<uint16>, source: Source)

  const EMPTY_SCOPE := Scope(false, false, false, false, [], Absent)

  function NoteChannel(sc: Scope, p: Parameter): Scope
  {
    var a := p.attribute;
    var sc1 := sc.(dimmer := sc.dimmer || a == "Dimmer",
                   r := sc.r || a == "ColorAdd_R" || a == "ColorRGB_Red",
                   g := sc.g || a == "ColorAdd_G" || a == "ColorRGB_Green",
                   b := sc.b || a == "ColorAdd_B" || a == "ColorRGB_Blue");
    if IsAdditive(a)
    then sc1.(source := if sc.additive == [] then p.source else sc.source, additive := sc.additive + [p.offset])
    else sc1
  }

  function ScopeOf(ps: seq<Parameter>, cell: string): Scope
  {
    if ps == [] then EMPTY_SCOPE
    else
      var sc := ScopeOf(ps[..|ps| - 1], cell);
      var p := ps[|ps| - 1];
      if p.cell == cell then NoteChannel(sc, p) else sc
  }

  /** Part key has a dimmer channel of its own. */
  predicate HasRealDimmer(ps: seq<Parameter>, key: string)
  {
    exists i :: 0 <= i < |ps| && IsDimmer(ps[i]) && !ps[i].virtual && PartKey(ps[i].instance) == key
  }

  predicate WantsVirtual(ps: seq<Parameter>, cell: string)
  {
    var sc := ScopeOf(ps, cell);
    !sc.dimmer && sc.r && sc.g && sc.b && !(cell != "" && HasRealDimmer(ps, PartKey(cell)))
  }

  function VirtualDimmer(sc: Scope, cell: string, off: uint16): Parameter
  {
    Parameter(off, [], 1, 255, "Dimmer", cell, cell, sc.source, VirtualDetail, true, sc.additive, false, [], false)
  }

  /** The synthetic offset of a cell's virtual dimmer; 16 bits wide, so the 256th cell wraps. */
  function SyntheticOffset(index: nat): uint16
  {
    (VIRTUAL_DIMMER_OFFSET + index) % 0x1_0000
  }

  function OwnVirtual(ps: seq<Parameter>): seq<Parameter>
  {
    if WantsVirtual(ps, "") then [VirtualDimmer(ScopeOf(ps, ""), "", VIRTUAL_DIMMER_OFFSET)] else []
  }

  function CellVirtuals(ps: seq<Parameter>, cells: seq<Cell>): seq<Parameter>
  {
    if cells == [] then []
    else
      var c := cells[|cells| - 1];
      CellVirtuals(ps, cells[..|cells| - 1]) +
      if WantsVirtual(ps, c.id) then [VirtualDimmer(ScopeOf(ps, c.id), c.id, SyntheticOffset(c.index))] else []
  }

  function WithVirtuals(ps: seq<Parameter>, cells: seq<Cell>): seq<Parameter>
  {
    ps + OwnVirtual(ps) + CellVirtuals(ps, cells)
  }

  // ---------------------------------------------------------------- parts

  /** p is an intensity parameter of part key. */
  predicate InPart(p: Parameter, key: string)
  {
    IsDimmer(p) && !p.master && PartKey(p.instance) == key
  }

  /** The part keys, in the order of their first dimmer. */
  function PartKeys(ps: seq<Parameter>): seq<string>
  {
    if ps == [] then []
    else
      var ks := PartKeys(ps[..|ps| - 1]);
      var p := ps[|ps| - 1];
      if IsDimmer(p) && PartKey(p.instance) !in ks then ks + [PartKey(p.instance)] else ks
  }

  function DimmersOf(ps: seq<Parameter>, key: string): seq<uint16>
  {
    if ps == [] then []
    else
      var p := ps[|ps| - 1];
      DimmersOf(ps[..|ps| - 1], key) + if IsDimmer(p) && PartKey(p.instance) == key then [p.offset] else []
  }

  /** The part holds cells: a cell's geometry is in it, or a cell's dimmer or a virtual one is. */
  predicate HoldsCells(ps: seq<Parameter>, cells: seq<Cell>, key: string)
  {
    (exists i :: 0 <= i < |cells| && PartKey(cells[i].id) == key) ||
    exists i :: 0 <= i < |ps| && IsDimmer(ps[i]) && PartKey(ps[i].instance) == key && (ps[i].cell != "" || ps[i].virtual)
  }

  predicate IsBody(key: string)
  {
    key in {"", "base", "body", "head", "yoke", "main"}
  }

  /** The master is the only part without cells, or the only such part named for a body geometry. */
  predicate IsMasterKey(ps: seq<Parameter>, cells: seq<Cell>, key: string)
  {
    var ks := PartKeys(ps);
    key in ks && !HoldsCells(ps, cells, key) &&
    ((forall k :: k in ks && !HoldsCells(ps, cells, k) ==> k == key) ||
     (IsBody(key) && forall k :: k in ks && !HoldsCells(ps, cells, k) && IsBody(k) ==> k == key))
  }

  function PartsOf(ps: seq<Parameter>, cells: seq<Cell>): seq<Part>
  {
    var ks := PartKeys(ps);
    seq(|ks|, i requires 0 <= i < |ks| => Part(ks[i], IsMasterKey(ps, cells, ks[i]), DimmersOf(ps, ks[i]), false))
  }

  /** No fixture has two masters. */
  lemma OneMaster(ps: seq<Parameter>, cells: seq<Cell>, k: string, k': string)
    requires IsMasterKey(ps, cells, k) && IsMasterKey(ps, cells, k')
    ensures k == k'
  {}

  // ---------------------------------------------------------------- inner dimmers

  /** The geometries that hold a dimmer of part key. */
  function Holders(ps: seq<Parameter>, key: string): set<string>
  {
    set i | 0 <= i < |ps| && InPart(ps[i], key) && ps[i].instance != "" :: ps[i].instance
  }

  /** p lies under another dimmer of its own part. */
  ghost predicate IsInner(ps: seq<Parameter>, tree: Option<Tree>, p: Parameter)
  {
    tree.Some? && IsDimmer(p) && !p.master && p.instance != "" &&
    StrictlyUnder(tree.value, p.instance, Holders(ps, PartKey(p.instance)))
  }

  ghost function WithInner(ps: seq<Parameter>, tree: Option<Tree>): seq<Parameter>
  {
    seq(|ps|, i requires 0 <= i < |ps| => ps[i].(inner := ps[i].inner || IsInner(ps, tree, ps[i])))
  }

  // ---------------------------------------------------------------- software master

  predicate MasterHas(parts: seq<Part>, key: string)
  {
    exists i :: 0 <= i < |parts| && parts[i].master && parts[i].key == key
  }

  /** p is a dimmer channel of the master part. */
  predicate IsMasterChannel(parts: seq<Part>, p: Parameter)
  {
    IsDimmer(p) && !p.master && !p.virtual && MasterHas(parts, PartKey(p.instance))
  }

  function MasterGeometries(ps: seq<Parameter>, parts: seq<Part>): set<string>
  {
    set i | 0 <= i < |ps| && IsMasterChannel(parts, ps[i]) :: ps[i].instance
  }

  /** inst is dimmed on the fixture by the master channel. Without the tree it counts as dimmed. */
  ghost predicate UnderMaster(ps: seq<Parameter>, parts: seq<Part>, tree: Option<Tree>, inst: string)
  {
    (exists i :: 0 <= i < |ps| && IsMasterChannel(parts, ps[i])) &&
    (tree.None? || AtOrUnder(tree.value, inst, MasterGeometries(ps, parts)))
  }

  ghost predicate IsGoverned(ps: seq<Parameter>, parts: seq<Part>, tree: Option<Tree>, part: Part)
  {
    part.master || forall i :: 0 <= i < |ps| && InPart(ps[i], part.key) ==> UnderMaster(ps, parts, tree, ps[i].instance)
  }

  /** What the software master multiplies of p: the channel itself, or a virtual dimmer's colours. */
  function TargetsOf(p: Parameter): seq<uint16>
  {
    if p.inner then [] else if p.virtual then p.virtualOf else [p.offset]
  }

  function PartTargets(ps: seq<Parameter>, key: string): seq<uint16>
  {
    if ps == [] then []
    else
      var p := ps[|ps| - 1];
      PartTargets(ps[..|ps| - 1], key) + if InPart(p, key) then TargetsOf(p) else []
  }

  ghost function MasterTargets(ps: seq<Parameter>, parts: seq<Part>, tree: Option<Tree>, n: nat): seq<uint16>
    requires n <= |parts|
  {
    if n == 0 then []
    else MasterTargets(ps, parts, tree, n - 1) +
         if IsGoverned(ps, parts, tree, parts[n - 1]) then [] else PartTargets(ps, parts[n - 1].key)
  }

  ghost function WithGoverned(ps: seq<Parameter>, parts: seq<Part>, tree: Option<Tree>): seq<Part>
  {
    seq(|parts|, i requires 0 <= i < |parts| => parts[i].(governed := IsGoverned(ps, parts, tree, parts[i])))
  }

  function VirtualMaster(src: Source, masterOf: seq<uint16>): Parameter
  {
    Parameter(VIRTUAL_MASTER_OFFSET, [], 1, 255, "Dimmer", "", "", src, VirtualDetail, true, [], true, masterOf, false)
  }

  // ---------------------------------------------------------------- attributes met so far

  ghost predicate Gathered(ps: seq<Parameter>, attrs: map<string, set<string>>)
  {
    attrs.Keys == Instances(ps) && forall inst :: inst in attrs ==> attrs[inst] == AttributesOf(ps, inst)
  }

  lemma InstancesStep(ps: seq<Parameter>, p: Parameter)
    ensures Instances(ps + [p]) == Instances(ps) + if p.instance == "" then {} else {p.instance}
  {
    var qs := ps + [p];
    forall k | k in Instances(ps) ensures k in Instances(qs) {
      var i :| 0 <= i < |ps| && ps[i].instance == k && k != "";
      assert qs[i].instance == k;
    }
    assert qs[|ps|] == p;
  }

  lemma AttributesStep(ps: seq<Parameter>, p: Parameter)
    ensures forall inst :: AttributesOf(ps + [p], inst) == AttributesOf(ps, inst) + if p.instance == inst then {p.attribute} else {}
    ensures forall inst :: inst != "" && inst !in Instances(ps) ==> AttributesOf(ps, inst) == {}
  {
    var qs := ps + [p];
    assert qs[|ps|] == p;
    forall inst, a | a in AttributesOf(ps, inst) ensures a in AttributesOf(qs, inst) {
      var i :| 0 <= i < |ps| && ps[i].instance == inst && ps[i].attribute == a;
      assert qs[i].instance == inst && qs[i].attribute == a;
    }
  }

}
