/** Group faders. A moved fader claims dimmer channels of its members until it is released; a channel
    claimed by several follows the one moved last, and a part fader holds its part's inner dimmers
    open wherever nobody gives them a level. */
module Faders {
  import opened Prelude
  import opened ChannelMap
  import opened ParameterModel

  /** A whole fixture (cell "") or one of its cells. */
  datatype Target = Target(entry: string, cell: string)

  datatype FaderKind = TypeFader | PartFader | GroupFader

  datatype FaderDef = FaderDef(id: string, kind: FaderKind, hasParts: bool, part: string, members: seq<Target>)

  datatype FaderGroup = FaderGroup(id: string, members: seq<Target>)

  /** A moved fader: its level, and its place in the order the faders were moved. */
  datatype Claim = Claim(level: real, order: nat)

  datatype Channel = Channel(entry: string, offset: uint16)

  datatype Fixture = Fixture(model: Model, fixtureType: string, mode: string)

  type Rig = map<string, Fixture>

  // ---------------------------------------------------------------- what a fader claims

  predicate HasSoftwareMaster(m: Model)
  {
    exists i :: 0 <= i < |m.parameters| && m.parameters[i].master
  }

  /** p is one of t's channels: a cell's own, or of a whole fixture everything, except that a fixture
      with a software master has only its master channels and that master as its intensity. */
  predicate InScope(m: Model, t: Target, p: Parameter)
  {
    if t.cell != "" then p.cell == t.cell
    else !IsDimmer(p) || !HasSoftwareMaster(m) || p.master || IsMasterChannel(m.parts, p)
  }

  /** d is the plain fader of a type with one intensity part, so that part's fader. */
  predicate SinglePart(d: FaderDef, m: Model)
  {
    d.kind.TypeFader? && !d.hasParts && |m.parts| == 1
  }

  /** The part d stands for on a member with model m, if it is a part's fader there. */
  function PartFor(d: FaderDef, m: Model): Option<string>
  {
    if d.kind.PartFader? then Some(d.part) else if SinglePart(d, m) then Some(m.parts[0].key) else None
  }

  /** d sets p of member t. */
  predicate Drives(d: FaderDef, m: Model, t: Target, p: Parameter)
  {
    match PartFor(d, m)
    case Some(key) => InPart(p, key) && !p.inner
    case None => IsDimmer(p) && InScope(m, t, p)
  }

  /** d holds p of member t open. */
  predicate Holds(d: FaderDef, m: Model, p: Parameter)
  {
    match PartFor(d, m)
    case Some(key) => InPart(p, key) && p.inner
    case None => false
  }

  /** d claims channel k through one of its members. */
  ghost predicate ClaimsChannel(d: FaderDef, rig: Rig, k: Channel)
  {
    exists i, j :: 0 <= i < |d.members| && d.members[i].entry == k.entry && k.entry in rig &&
      0 <= j < |rig[k.entry].model.parameters| && rig[k.entry].model.parameters[j].offset == k.offset &&
      Drives(d, rig[k.entry].model, d.members[i], rig[k.entry].model.parameters[j])
  }

  ghost predicate HoldsChannel(d: FaderDef, rig: Rig, k: Channel)
  {
    exists i, j :: 0 <= i < |d.members| && d.members[i].entry == k.entry && k.entry in rig &&
      0 <= j < |rig[k.entry].model.parameters| && rig[k.entry].model.parameters[j].offset == k.offset &&
      Holds(d, rig[k.entry].model, rig[k.entry].model.parameters[j])
  }

  // ---------------------------------------------------------------- what the channels show

  type Claims = map<string, Claim>

  /** The most recently moved claim on k among the faders of defs. */
  ghost function Latest(defs: seq<FaderDef>, claims: Claims, rig: Rig, k: Channel): Option<Claim>
  {
    if defs == [] then None
    else
      var best := Latest(defs[..|defs| - 1], claims, rig, k);
      var d := defs[|defs| - 1];
      if d.id in claims && ClaimsChannel(d, rig, k) && (best.None? || best.value.order < claims[d.id].order)
      then Some(claims[d.id]) else best
  }

  ghost predicate HeldOpen(defs: seq<FaderDef>, claims: Claims, rig: Rig, k: Channel)
  {
    exists i :: 0 <= i < |defs| && defs[i].id in claims && HoldsChannel(defs[i], rig, k)
  }

  /** The level of channel k: the last moved claim on it, else full where it is held open, else no
      fader owns it. */
  ghost function Shown(defs: seq<FaderDef>, claims: Claims, rig: Rig, k: Channel): Option<real>
  {
    var best := Latest(defs, claims, rig, k);
    if best.Some? then Some(best.value.level)
    else if HeldOpen(defs, claims, rig, k) then Some(1.0)
    else None
  }

  /** output is what the channels show. */
  ghost predicate Shows(output: map<Channel, real>, defs: seq<FaderDef>, claims: Claims, rig: Rig)
  {
    forall k :: Shown(defs, claims, rig, k) == if k in output then Some(output[k]) else None
  }

  /** No two faders were moved at once. */
  ghost predicate OrderDistinct(claims: Claims)
  {
    forall i, j :: i in claims && j in claims && claims[i].order == claims[j].order ==> i == j
  }

  /** Latest is the claim no other claim on the channel came after. */
  lemma {:induction false} LatestIsLast(defs: seq<FaderDef>, claims: Claims, rig: Rig, k: Channel)
    ensures Latest(defs, claims, rig, k).None? <==> forall i :: 0 <= i < |defs| && defs[i].id in claims ==> !ClaimsChannel(defs[i], rig, k)
    ensures Latest(defs, claims, rig, k).Some? ==>
              (exists i :: 0 <= i < |defs| && defs[i].id in claims && ClaimsChannel(defs[i], rig, k) && claims[defs[i].id] == Latest(defs, claims, rig, k).value) &&
              forall i :: 0 <= i < |defs| && defs[i].id in claims && ClaimsChannel(defs[i], rig, k) ==> claims[defs[i].id].order <= Latest(defs, claims, rig, k).value.order
  {
    hide ClaimsChannel;
    if defs != [] {
      var init := defs[..|defs| - 1];
      LatestIsLast(init, claims, rig, k);
      assert forall i :: 0 <= i < |init| ==> init[i] == defs[i];
    }
  }

  // ---------------------------------------------------------------- laws of the output

  /** Moving fader id to level l, later than every other, gives its channels that level; channels it
      neither claims nor holds keep what they showed. */
  lemma MoveSets(defs: seq<FaderDef>, claims: Claims, rig: Rig, id: string, c: Claim, k: Channel)
    requires forall i :: i in claims ==> claims[i].order < c.order
    ensures (exists i :: 0 <= i < |defs| && defs[i].id == id && ClaimsChannel(defs[i], rig, k)) ==>
              Shown(defs, claims[id := c], rig, k) == Some(c.level)
    ensures id !in claims && (forall i :: 0 <= i < |defs| && defs[i].id == id ==> !ClaimsChannel(defs[i], rig, k)) ==>
              Shown(defs, claims[id := c], rig, k) ==
                if Shown(defs, claims, rig, k).None? && (exists i :: 0 <= i < |defs| && defs[i].id == id && HoldsChannel(defs[i], rig, k))
                then Some(1.0) else Shown(defs, claims, rig, k)
  {
    var now := claims[id := c];
    LatestIsLast(defs, now, rig, k);
    hide ClaimsChannel, HoldsChannel;
    if id !in claims && forall i :: 0 <= i < |defs| && defs[i].id == id ==> !ClaimsChannel(defs[i], rig, k) {
      SameClaims(defs, claims, now, rig, k, id);
    }
  }

  /** Claims that differ only in a fader that does not claim k agree on k. */
  lemma {:induction false} SameClaims(defs: seq<FaderDef>, claims: Claims, claims': Claims, rig: Rig, k: Channel, id: string)
    requires forall i :: i != id ==> (i in claims <==> i in claims') && (i in claims ==> claims[i] == claims'[i])
    requires forall i :: 0 <= i < |defs| && defs[i].id == id ==> !ClaimsChannel(defs[i], rig, k)
    ensures Latest(defs, claims, rig, k) == Latest(defs, claims', rig, k)
  {
    hide ClaimsChannel;
    if defs != [] {
      var init := defs[..|defs| - 1];
      assert forall i :: 0 <= i < |init| ==> init[i] == defs[i];
      SameClaims(init, claims, claims', rig, k, id);
    }
  }

  /** Releasing a fader hands each of its channels to the next most recent claim on it, and changes no
      channel it did not decide. */
  lemma ReleaseHandsBack(defs: seq<FaderDef>, claims: Claims, rig: Rig, id: string, k: Channel)
    requires OrderDistinct(claims) && id in claims
    ensures var after := Latest(defs, claims - {id}, rig, k);
            (Latest(defs, claims, rig, k) != Some(claims[id]) ==> after == Latest(defs, claims, rig, k)) &&
            (Latest(defs, claims, rig, k) == Some(claims[id]) ==>
              (after.Some? ==> after.value.order < claims[id].order) &&
              (after.None? <==> forall i :: 0 <= i < |defs| && defs[i].id in claims && ClaimsChannel(defs[i], rig, k) ==> defs[i].id == id))
  {
    LatestIsLast(defs, claims, rig, k);
    LatestIsLast(defs, claims - {id}, rig, k);
    hide ClaimsChannel, Latest;
    var was, after := Latest(defs, claims, rig, k), Latest(defs, claims - {id}, rig, k);
    if was.Some? && was != Some(claims[id]) {
      var i :| 0 <= i < |defs| && defs[i].id in claims && ClaimsChannel(defs[i], rig, k) && claims[defs[i].id] == was.value;
      assert defs[i].id in claims - {id};
      assert after.Some? && was.value.order <= after.value.order;
    }
  }

  /** Only the order of the moves counts: claims with the same levels, moved in the same order, show
      the same on every channel. */
  lemma {:induction false} OrderOnly(defs: seq<FaderDef>, claims: Claims, claims': Claims, rig: Rig, k: Channel)
    requires claims.Keys == claims'.Keys
    requires forall i :: i in claims ==> claims[i].level == claims'[i].level
    requires forall i, j :: i in claims && j in claims ==> (claims[i].order < claims[j].order <==> claims'[i].order < claims'[j].order)
    requires OrderDistinct(claims)
    ensures Shown(defs, claims, rig, k) == Shown(defs, claims', rig, k)
  {
    LatestIsLast(defs, claims, rig, k);
    LatestIsLast(defs, claims', rig, k);
    hide ClaimsChannel, HoldsChannel, Latest;
    var a, b := Latest(defs, claims, rig, k), Latest(defs, claims', rig, k);
    if a.Some? && b.Some? {
      var i :| 0 <= i < |defs| && defs[i].id in claims && ClaimsChannel(defs[i], rig, k) && claims[defs[i].id] == a.value;
      var j :| 0 <= j < |defs| && defs[j].id in claims' && ClaimsChannel(defs[j], rig, k) && claims'[defs[j].id] == b.value;
      assert claims[defs[j].id].order <= claims[defs[i].id].order;
      assert claims'[defs[i].id].order <= claims'[defs[j].id].order;
    }
  }

  // ---------------------------------------------------------------- the faders of a show

  function TypeId(f: Fixture): string
  {
    "type:" + f.fixtureType + "|" + f.mode
  }

  function Whole(entry: string): Target
  {
    Target(entry, "")
  }

  function FindDef(defs: seq<FaderDef>, id: string): (i: nat)
    ensures i <= |defs| && (i < |defs| ==> defs[i].id == id) && forall j :: 0 <= j < i ==> defs[j].id != id
  {
    if defs == [] || defs[0].id == id then 0 else 1 + FindDef(defs[1..], id)
  }

  /** One more fixture joins the fader of its type and mode, or opens it. */
  function JoinType(defs: seq<FaderDef>, id: string, t: Target): seq<FaderDef>
  {
    var i := FindDef(defs, id);
    if i < |defs| then defs[i := defs[i].(members := defs[i].members + [t])]
    else defs + [FaderDef(id, TypeFader, false, "", [t])]
  }

  function TypeDefs(order: seq<string>, rig: Rig): seq<FaderDef>
    requires forall e :: e in order ==> e in rig
  {
    if order == [] then []
    else JoinType(TypeDefs(order[..|order| - 1], rig), TypeId(rig[order[|order| - 1]]), Whole(order[|order| - 1]))
  }

  function PartDefs(d: FaderDef, parts: seq<Part>): seq<FaderDef>
  {
    if parts == [] then []
    else
      var pt := parts[|parts| - 1];
      PartDefs(d, parts[..|parts| - 1]) +
      if pt.master then [] else [FaderDef("part:" + (if "type:" <= d.id then d.id[5..] else d.id) + "|" + pt.key, PartFader, false, pt.key, d.members)]
  }

  /** A type fader, and after it the faders of its parts when its first fixture has several. */
  function Expand(d: FaderDef, rig: Rig): seq<FaderDef>
  {
    var parts := if |d.members| > 0 && d.members[0].entry in rig then rig[d.members[0].entry].model.parts else [];
    if |parts| > 1 then [d.(hasParts := true)] + PartDefs(d, parts) else [d]
  }

  function ExpandAll(defs: seq<FaderDef>, rig: Rig): seq<FaderDef>
  {
    if defs == [] then [] else ExpandAll(defs[..|defs| - 1], rig) + Expand(defs[|defs| - 1], rig)
  }

  predicate LiveTarget(rig: Rig, t: Target)
  {
    t.entry in rig && (t.cell == "" || exists i :: 0 <= i < |rig[t.entry].model.cells| && rig[t.entry].model.cells[i].id == t.cell)
  }

  function LiveMembers(ts: seq<Target>, rig: Rig): seq<Target>
  {
    if ts == [] then []
    else LiveMembers(ts[..|ts| - 1], rig) + if LiveTarget(rig, ts[|ts| - 1]) then [ts[|ts| - 1]] else []
  }

  function GroupDefs(groups: seq<FaderGroup>, rig: Rig): seq<FaderDef>
  {
    if groups == [] then []
    else
      var g := groups[|groups| - 1];
      GroupDefs(groups[..|groups| - 1], rig) + [FaderDef("group:" + g.id, GroupFader, false, "", LiveMembers(g.members, rig))]
  }

  function FaderDefs(order: seq<string>, rig: Rig, groups: seq<FaderGroup>): seq<FaderDef>
    requires forall e :: e in order ==> e in rig
  {
    ExpandAll(TypeDefs(order, rig), rig) + GroupDefs(groups, rig)
  }

  /** Every patched fixture is a member of exactly one type fader, once. */
  ghost predicate MemberOf(defs: seq<FaderDef>, i: int, j: int, t: Target)
  {
    0 <= i < |defs| && 0 <= j < |defs[i].members| && defs[i].members[j] == t
  }

  lemma {:induction false} OneTypeFader(order: seq<string>, rig: Rig)
    requires forall e :: e in order ==> e in rig
    requires forall a, b :: 0 <= a < b < |order| ==> order[a] != order[b]
    ensures var defs := TypeDefs(order, rig);
            (forall e :: e in order <==> exists i, j :: MemberOf(defs, i, j, Whole(e))) &&
            (forall e, i, j, i', j' :: MemberOf(defs, i, j, Whole(e)) && MemberOf(defs, i', j', Whole(e)) ==> i == i' && j == j') &&
            (forall e, i, j :: MemberOf(defs, i, j, Whole(e)) ==> e in rig && defs[i].id == TypeId(rig[e])) &&
            (forall i, i' :: 0 <= i < i' < |defs| ==> defs[i].id != defs[i'].id)
  {
    hide MemberOf, JoinType, TypeId;
    if order != [] {
      var init, e := order[..|order| - 1], order[|order| - 1];
      assert forall x :: x in order <==> x in init || x == e;
      OneTypeFader(init, rig);
      JoinOne(TypeDefs(init, rig), TypeId(rig[e]), e, init);
    } else {
      NoMembers();
    }
  }

  lemma NoMembers()
    ensures forall i, j, t :: !MemberOf([], i, j, t)
  {}

  lemma JoinOne(was: seq<FaderDef>, id: string, e: string, init: seq<string>)
    requires e !in init
    requires forall x :: x in init <==> exists i, j :: MemberOf(was, i, j, Whole(x))
    ensures var now := JoinType(was, id, Whole(e));
            (forall x :: x in init || x == e <==> exists i, j :: MemberOf(now, i, j, Whole(x))) &&
            (forall x, i, j :: x != e && MemberOf(now, i, j, Whole(x)) ==> MemberOf(was, i, j, Whole(x)) && now[i].id == was[i].id) &&
            (forall i, j :: MemberOf(now, i, j, Whole(e)) ==>
               i == FindDef(was, id) && j == (if i < |was| then |was[i].members| else 0) && now[i].id == id) &&
            |was| <= |now| && (forall i :: 0 <= i < |was| ==> now[i].id == was[i].id) &&
            (|now| > |was| ==> |now| == |was| + 1 && now[|was|].id == id && FindDef(was, id) == |was|)
  {
    var now, n := JoinType(was, id, Whole(e)), FindDef(was, id);
    forall x | x in init || x == e ensures exists i, j :: MemberOf(now, i, j, Whole(x)) {
      if x == e {
        assert MemberOf(now, n, if n < |was| then |was[n].members| else 0, Whole(e));
      } else {
        var i, j :| MemberOf(was, i, j, Whole(x));
        assert MemberOf(now, i, j, Whole(x));
      }
    }
    forall x, i, j | x != e && MemberOf(now, i, j, Whole(x)) ensures x in init {
      assert MemberOf(was, i, j, Whole(x));
    }
    forall i, j | MemberOf(now, i, j, Whole(e))
      ensures i == n && j == (if i < |was| then |was[i].members| else 0) && now[i].id == id
    {
      if i < |was| && j < |was[i].members| {
        assert MemberOf(was, i, j, Whole(e));
      }
    }
  }

  // ---------------------------------------------------------------- the faders' state

  datatype FaderError = Stale | Unknown | BadLevel

  class FaderBank {
    var order: seq<string>
    var rig: Rig
    var groups: seq<FaderGroup>
    var claims: Claims
    var moves: nat
    var revision: nat
    var lastView: string
    /** What the engine was last given, by channel. */
    var output: map<Channel, real>

    ghost predicate Valid()
      reads this
    {
      (forall e :: e in order ==> e in rig) && OrderDistinct(claims) &&
      forall i :: i in claims ==> claims[i].order <= moves && 0.0 <= claims[i].level <= 1.0
    }

    function Defs(): seq<FaderDef>
      reads this
      requires Valid()
    {
      FaderDefs(order, rig, groups)
    }

    /** The engine has what the claims say. */
    ghost predicate Applied()
      reads this
      requires Valid()
    {
      Shows(output, Defs(), claims, rig)
    }

    constructor (order: seq<string>, rig: Rig, seed: nat)
      requires forall e :: e in order ==> e in rig
      ensures Valid() && Applied() && claims == map[] && revision == seed
    {
      this.order, this.rig, groups, claims, moves, revision, lastView, output := order, rig, [], map[], 0, seed, "", map[];
      new;
      NothingMoved(Defs(), rig);
    }

    /** The moved faders, the one moved first first. */
    method MovedInOrder() returns (moved: seq<FaderDef>)
      requires Valid()
      ensures forall d :: d in moved <==> d in Defs() && d.id in claims
      ensures ByMoves(moved, claims)
    {
      moved := [];
      var defs := Defs();
      hide FaderDefs;
      for n := 0 to |defs|
        invariant forall d :: d in moved <==> d in defs[..n] && d.id in claims
        invariant ByMoves(moved, claims)
      {
        var d := defs[n];
        assert defs[..n + 1] == defs[..n] + [d];
        if d.id in claims {
          Inserted(moved, claims, d);
          moved := InsertMoved(moved, claims, d);
        }
      }
      assert defs[..|defs|] == defs;
    }

    /** Every channel a member's fader sets takes the fader's level. */
    static method ClaimMembers(d: FaderDef, rig: Rig, level: real, chans0: map<Channel, real>) returns (chans: map<Channel, real>)
      ensures forall k :: k in chans <==> k in chans0 || ClaimsChannel(d, rig, k)
      ensures forall k :: k in chans ==> chans[k] == if ClaimsChannel(d, rig, k) then level else chans0[k]
    {
      chans := chans0;
      for i := 0 to |d.members|
        invariant forall k :: k in chans <==> k in chans0 || ClaimsUpTo(d, rig, k, i, 0)
        invariant forall k :: k in chans ==> chans[k] == if ClaimsUpTo(d, rig, k, i, 0) then level else chans0[k]
      {
        var t := d.members[i];
        if t.entry in rig {
          var m := rig[t.entry].model;
          for j := 0 to |m.parameters|
            invariant forall k :: k in chans <==> k in chans0 || ClaimsUpTo(d, rig, k, i, j)
            invariant forall k :: k in chans ==> chans[k] == if ClaimsUpTo(d, rig, k, i, j) then level else chans0[k]
          {
            hide Drives;
            if Drives(d, m, t, m.parameters[j]) {
              chans := chans[Channel(t.entry, m.parameters[j].offset) := level];
            }
          }
        }
      }
    }

    /** Every channel a member's fader holds is full, where nothing sets it. */
    static method HoldMembers(d: FaderDef, rig: Rig, chans0: map<Channel, real>) returns (chans: map<Channel, real>)
      ensures forall k :: k in chans <==> k in chans0 || HoldsChannel(d, rig, k)
      ensures forall k :: k in chans ==> chans[k] == if k in chans0 then chans0[k] else 1.0
    {
      chans := chans0;
      for i := 0 to |d.members|
        invariant forall k :: k in chans <==> k in chans0 || HoldsUpTo(d, rig, k, i, 0)
        invariant forall k :: k in chans ==> chans[k] == if k in chans0 then chans0[k] else 1.0
      {
        var t := d.members[i];
        if t.entry in rig {
          var m := rig[t.entry].model;
          for j := 0 to |m.parameters|
            invariant forall k :: k in chans <==> k in chans0 || HoldsUpTo(d, rig, k, i, j)
            invariant forall k :: k in chans ==> chans[k] == if k in chans0 then chans0[k] else 1.0
          {
            hide Holds;
            var k := Channel(t.entry, m.parameters[j].offset);
            if Holds(d, m, m.parameters[j]) && k !in chans {
              chans := chans[k := 1.0];
            }
          }
        }
      }
    }

    static method ClaimAll(moved: seq<FaderDef>, claims: Claims, rig: Rig) returns (chans: map<Channel, real>)
      requires forall i :: 0 <= i < |moved| ==> moved[i].id in claims
      ensures Driven(chans, moved, claims, rig)
    {
      chans := map[];
      for i := 0 to |moved|
        invariant Driven(chans, moved[..i], claims, rig)
      {
        hide ClaimsChannel, Driven;
        assert moved[..i + 1] == moved[..i] + [moved[i]];
        ghost var before := chans;
        chans := ClaimMembers(moved[i], rig, claims[moved[i].id].level, chans);
        DriveOneMore(before, chans, moved[..i], moved[i], claims, rig);
      }
      assert moved[..|moved|] == moved;
    }

    static method HoldAll(moved: seq<FaderDef>, rig: Rig, driven: map<Channel, real>) returns (chans: map<Channel, real>)
      ensures forall k :: k in chans <==> k in driven || exists a :: 0 <= a < |moved| && HoldsChannel(moved[a], rig, k)
      ensures forall k :: k in chans ==> chans[k] == if k in driven then driven[k] else 1.0
    {
      hide HoldsChannel;
      chans := driven;
      for i := 0 to |moved|
        invariant forall k :: k in chans <==> k in driven || exists a :: 0 <= a < i && HoldsChannel(moved[a], rig, k)
        invariant forall k :: k in chans ==> chans[k] == if k in driven then driven[k] else 1.0
      {
        chans := HoldMembers(moved[i], rig, chans);
      }
    }

    /** Writes the moved faders to the engine: in the order they were moved, so that the last one wins,
        and then the inner dimmers held open. */
    method Apply()
      requires Valid()
      modifies this`output
      ensures Valid() && Applied()
    {
      hide Shows, Driven, HoldsChannel, FaderDefs, OrderDistinct;
      var moved := MovedInOrder();
      var driven := ClaimAll(moved, claims, rig);
      var chans := HoldAll(moved, rig, driven);
      AppliedShows(Defs(), claims, rig, moved, driven, chans);
      output := chans;
    }

    method Check(expected: Option<nat>, id: string) returns (err: Option<FaderError>)
      requires Valid()
      ensures err == if expected.Some? && expected.value != revision then Some(Stale)
                     else if id != "" && FindDef(Defs(), id) == |Defs()| then Some(Unknown)
                     else None
    {
      if expected.Some? && expected.value != revision {
        return Some(Stale);
      }
      if id != "" && FindDef(Defs(), id) == |Defs()| {
        return Some(Unknown);
      }
      return None;
    }

    /** Moves fader id to level: it becomes the fader moved last. A refused move changes nothing. */
    method SetFader(id: string, level: real, expected: Option<nat>) returns (err: Option<FaderError>)
      requires Valid()
      modifies this`claims, this`moves, this`revision, this`output
      ensures Valid()
      ensures err == if expected.Some? && expected.value != old(revision) then Some(Stale)
                     else if id != "" && FindDef(Defs(), id) == |Defs()| then Some(Unknown)
                     else if level < 0.0 || level > 1.0 then Some(BadLevel)
                     else None
      ensures err.Some? ==> claims == old(claims) && moves == old(moves) && revision == old(revision) && output == old(output)
      ensures err.None? ==> claims == old(claims)[id := Claim(level, moves)] && moves == old(moves) + 1 && revision == old(revision) + 1
      ensures err.None? ==> Applied() && forall i :: i in old(claims) ==> old(claims)[i].order < moves
    {
      hide Shows, FindDef, FaderDefs;
      err := Check(expected, id);
      if err.Some? {
        return;
      }
      if level < 0.0 || level > 1.0 {
        return Some(BadLevel);
      }
      moves := moves + 1;
      claims := claims[id := Claim(level, moves)];
      Apply();
      revision := revision + 1;
    }

    /** Releases fader id, or every fader for "". */
    method ReleaseFader(id: string, expected: Option<nat>) returns (err: Option<FaderError>, changed: bool)
      requires Valid() && Applied()
      modifies this`claims, this`revision, this`output
      ensures Valid() && Applied()
      ensures err == if expected.Some? && expected.value != old(revision) then Some(Stale)
                     else if id != "" && FindDef(Defs(), id) == |Defs()| then Some(Unknown)
                     else None
      ensures err.Some? ==> !changed
      ensures !changed ==> claims == old(claims) && revision == old(revision) && output == old(output)
      ensures changed ==> err.None? && revision == old(revision) + 1
      ensures err.None? ==> claims == if id == "" then map[] else old(claims) - {id}
    {
      hide Shows, FindDef, FaderDefs;
      changed := false;
      err := Check(expected, id);
      if err.Some? {
        return;
      }
      if id == "" {
        changed := |claims| > 0;
        claims := map[];
      } else if id in claims {
        claims := claims - {id};
        changed := true;
      }
      if changed {
        Apply();
        revision := revision + 1;
      }
    }

    /** Drops the claims on faders that are gone. */
    method DropGone()
      requires Valid()
      modifies this`claims
      ensures Valid()
      ensures forall i :: i in claims <==> i in old(claims) && FindDef(Defs(), i) < |Defs()|
      ensures forall i :: i in claims ==> claims[i] == old(claims)[i]
    {
      hide FindDef, FaderDefs;
      var defs := Defs();
      claims := map i | i in claims && FindDef(defs, i) < |defs| :: claims[i];
    }

    /** Follows a changed patch: claims of faders that are gone go with them, all of them at a show
        switch, and the rest is written again. view is what the faders show, apart from their levels;
        the revision moves when that or a claim changed. */
    method Refresh(order: seq<string>, rig: Rig, groups: seq<FaderGroup>, view: string, clear: bool)
      requires Valid() && forall e :: e in order ==> e in rig
      modifies this
      ensures Valid() && Applied() && this.order == order && this.rig == rig && this.groups == groups && moves == old(moves)
      ensures forall i :: i in claims <==> !clear && i in old(claims) && FindDef(FaderDefs(order, rig, groups), i) < |FaderDefs(order, rig, groups)|
      ensures forall i :: i in claims ==> claims[i] == old(claims)[i]
      ensures lastView == view && revision == old(revision) + if claims != old(claims) || view != old(lastView) then 1 else 0
    {
      hide Shows, FindDef, FaderDefs, OrderDistinct;
      var before := claims;
      Repatch(order, rig, groups, clear);
      var changed := claims != before || view != lastView;
      lastView := view;
      Apply();
      if changed {
        revision := revision + 1;
      }
    }

    /** The claims that outlive a change of the patch. */
    method Repatch(order: seq<string>, rig: Rig, groups: seq<FaderGroup>, clear: bool)
      requires Valid() && forall e :: e in order ==> e in rig
      modifies this`order, this`rig, this`groups, this`claims
      ensures Valid() && this.order == order && this.rig == rig && this.groups == groups
      ensures forall i :: i in claims <==> !clear && i in old(claims) && FindDef(FaderDefs(order, rig, groups), i) < |FaderDefs(order, rig, groups)|
      ensures forall i :: i in claims ==> claims[i] == old(claims)[i]
    {
      hide FindDef, FaderDefs;
      this.order, this.rig, this.groups := order, rig, groups;
      if clear {
        claims := map[];
      }
      DropGone();
    }

    /** Moving a fader nobody had moved, and releasing it, leaves every channel as it was. */
    method MoveAndRelease(id: string, level: real) returns (err: Option<FaderError>)
      requires Valid() && Applied() && id != "" && id !in claims
      modifies this`claims, this`moves, this`revision, this`output
      ensures Valid() && Applied() && claims == old(claims) && output == old(output)
    {
      hide Shows, FindDef, FaderDefs;
      err := SetFader(id, level, None);
      if err.None? {
        assert claims - {id} == old(claims);
        var err', changed := ReleaseFader(id, None);
        ShownOnce(Defs(), claims, rig, output, old(output));
      }
    }
  }

  /** The claims decide the output. */
  lemma ShownOnce(defs: seq<FaderDef>, claims: Claims, rig: Rig, output: map<Channel, real>, output': map<Channel, real>)
    requires Shows(output, defs, claims, rig) && Shows(output', defs, claims, rig)
    ensures output == output'
  {
    forall k ensures k in output <==> k in output' {
      assert Shown(defs, claims, rig, k) == if k in output then Some(output[k]) else None;
    }
    forall k | k in output ensures output[k] == output'[k] {
      assert Shown(defs, claims, rig, k) == if k in output then Some(output[k]) else None;
    }
  }

  /** The last fader of moved that sets k is the one at a. */
  ghost predicate LastAt(moved: seq<FaderDef>, rig: Rig, k: Channel, a: int)
  {
    0 <= a < |moved| && ClaimsChannel(moved[a], rig, k) && forall b :: a < b < |moved| ==> !ClaimsChannel(moved[b], rig, k)
  }

  /** The level of every channel a fader of moved sets is the last such fader's. */
  ghost predicate Driven(chans: map<Channel, real>, moved: seq<FaderDef>, claims: Claims, rig: Rig)
    requires forall i :: 0 <= i < |moved| ==> moved[i].id in claims
  {
    (forall k, a :: 0 <= a < |moved| && ClaimsChannel(moved[a], rig, k) ==> k in chans) &&
    forall k :: k in chans ==> exists a :: LastAt(moved, rig, k, a) && chans[k] == claims[moved[a].id].level
  }

  lemma DriveOneMore(was: map<Channel, real>, now: map<Channel, real>, moved: seq<FaderDef>, d: FaderDef, claims: Claims, rig: Rig)
    requires d.id in claims && forall i :: 0 <= i < |moved| ==> moved[i].id in claims
    requires Driven(was, moved, claims, rig)
    requires forall k :: k in now <==> k in was || ClaimsChannel(d, rig, k)
    requires forall k :: k in now ==> now[k] == if ClaimsChannel(d, rig, k) then claims[d.id].level else was[k]
    ensures Driven(now, moved + [d], claims, rig)
  {
    hide ClaimsChannel;
    var all := moved + [d];
    forall k | k in now ensures exists a :: LastAt(all, rig, k, a) && now[k] == claims[all[a].id].level {
      if ClaimsChannel(d, rig, k) {
        assert LastAt(all, rig, k, |moved|);
      } else {
        var a :| LastAt(moved, rig, k, a) && was[k] == claims[moved[a].id].level;
        assert LastAt(all, rig, k, a);
      }
    }
  }

  lemma AppliedShows(defs: seq<FaderDef>, claims: Claims, rig: Rig, moved: seq<FaderDef>, driven: map<Channel, real>, chans: map<Channel, real>)
    requires OrderDistinct(claims) && ByMoves(moved, claims) && Driven(driven, moved, claims, rig)
    requires forall d :: d in moved <==> d in defs && d.id in claims
    requires forall k :: k in chans <==> k in driven || exists a :: 0 <= a < |moved| && HoldsChannel(moved[a], rig, k)
    requires forall k :: k in chans ==> chans[k] == if k in driven then driven[k] else 1.0
    ensures Shows(chans, defs, claims, rig)
  {
    hide ClaimsChannel, HoldsChannel, Latest, HeldOpen, OrderDistinct, ByMoves;
    forall k ensures Shown(defs, claims, rig, k) == if k in chans then Some(chans[k]) else None {
      LatestIsLast(defs, claims, rig, k);
      if Latest(defs, claims, rig, k).Some? {
        DrivenIsLatest(defs, claims, rig, moved, driven, k);
      } else {
        forall a | 0 <= a < |moved| ensures !ClaimsChannel(moved[a], rig, k) {
          assert moved[a] in defs;
        }
        HeldByMoved(defs, claims, rig, moved, k);
      }
    }
  }

  lemma DrivenIsLatest(defs: seq<FaderDef>, claims: Claims, rig: Rig, moved: seq<FaderDef>, driven: map<Channel, real>, k: Channel)
    requires OrderDistinct(claims) && ByMoves(moved, claims) && Driven(driven, moved, claims, rig)
    requires forall d :: d in moved <==> d in defs && d.id in claims
    requires Latest(defs, claims, rig, k).Some?
    ensures k in driven && driven[k] == Latest(defs, claims, rig, k).value.level
  {
    hide ClaimsChannel, Latest, ByMoves, OrderDistinct;
    LatestIsLast(defs, claims, rig, k);
    var best := Latest(defs, claims, rig, k);
    var i :| 0 <= i < |defs| && defs[i].id in claims && ClaimsChannel(defs[i], rig, k) && claims[defs[i].id] == best.value;
    assert defs[i] in moved;
    var n :| 0 <= n < |moved| && moved[n] == defs[i];
    var a :| LastAt(moved, rig, k, a) && driven[k] == claims[moved[a].id].level;
    assert moved[a] in defs;
    var j :| 0 <= j < |defs| && defs[j] == moved[a];
    LastComesLast(moved, claims, rig, k, a, n);
    assert claims[defs[j].id].order <= best.value.order;
    SameOrder(claims, defs[i].id, defs[j].id);
  }

  lemma LastComesLast(moved: seq<FaderDef>, claims: Claims, rig: Rig, k: Channel, a: int, n: nat)
    requires ByMoves(moved, claims) && LastAt(moved, rig, k, a) && n < |moved| && ClaimsChannel(moved[n], rig, k)
    ensures claims[moved[n].id].order <= claims[moved[a].id].order
  {
    hide ClaimsChannel;
  }

  lemma SameOrder(claims: Claims, i: string, j: string)
    requires OrderDistinct(claims) && i in claims && j in claims && claims[i].order == claims[j].order
    ensures i == j
  {}

  lemma HeldByMoved(defs: seq<FaderDef>, claims: Claims, rig: Rig, moved: seq<FaderDef>, k: Channel)
    requires forall d :: d in moved <==> d in defs && d.id in claims
    ensures HeldOpen(defs, claims, rig, k) <==> exists a :: 0 <= a < |moved| && HoldsChannel(moved[a], rig, k)
  {
    hide HoldsChannel;
    if HeldOpen(defs, claims, rig, k) {
      var i :| 0 <= i < |defs| && defs[i].id in claims && HoldsChannel(defs[i], rig, k);
      assert defs[i] in moved;
    }
    if a :| 0 <= a < |moved| && HoldsChannel(moved[a], rig, k) {
      assert moved[a] in defs;
    }
  }

  /** moved is in the order the faders were moved. */
  ghost predicate ByMoves(moved: seq<FaderDef>, claims: Claims)
  {
    (forall i :: 0 <= i < |moved| ==> moved[i].id in claims) &&
    forall i, j :: 0 <= i < j < |moved| ==> claims[moved[i].id].order <= claims[moved[j].id].order
  }

  function InsertMoved(moved: seq<FaderDef>, claims: Claims, d: FaderDef): seq<FaderDef>
    requires d.id in claims && forall i :: 0 <= i < |moved| ==> moved[i].id in claims
  {
    if moved == [] || claims[d.id].order < claims[moved[0].id].order then [d] + moved
    else [moved[0]] + InsertMoved(moved[1..], claims, d)
  }

  lemma {:induction false} Inserted(moved: seq<FaderDef>, claims: Claims, d: FaderDef)
    requires ByMoves(moved, claims) && d.id in claims
    ensures ByMoves(InsertMoved(moved, claims, d), claims)
    ensures forall x :: x in InsertMoved(moved, claims, d) <==> x in moved || x == d
  {
    if moved != [] && claims[d.id].order >= claims[moved[0].id].order {
      Inserted(moved[1..], claims, d);
      var rest := InsertMoved(moved[1..], claims, d);
      assert forall x :: x in moved <==> x == moved[0] || x in moved[1..];
      forall i | 0 <= i < |rest| ensures claims[moved[0].id].order <= claims[rest[i].id].order {
        assert rest[i] in rest;
      }
    }
  }

  /** ClaimsChannel, looking at the first i members and the first j channels of the next. */
  ghost predicate ClaimsUpTo(d: FaderDef, rig: Rig, k: Channel, i: nat, j: nat)
    requires i <= |d.members|
  {
    k.entry in rig &&
    exists a, b :: 0 <= a < |d.members| && d.members[a].entry == k.entry && (a < i || (a == i && b < j)) &&
      0 <= b < |rig[k.entry].model.parameters| && rig[k.entry].model.parameters[b].offset == k.offset &&
      Drives(d, rig[k.entry].model, d.members[a], rig[k.entry].model.parameters[b])
  }

  ghost predicate HoldsUpTo(d: FaderDef, rig: Rig, k: Channel, i: nat, j: nat)
    requires i <= |d.members|
  {
    k.entry in rig &&
    exists a, b :: 0 <= a < |d.members| && d.members[a].entry == k.entry && (a < i || (a == i && b < j)) &&
      0 <= b < |rig[k.entry].model.parameters| && rig[k.entry].model.parameters[b].offset == k.offset &&
      Holds(d, rig[k.entry].model, rig[k.entry].model.parameters[b])
  }

  lemma {:induction false} NothingMoved(defs: seq<FaderDef>, rig: Rig)
    ensures Shows(map[], defs, map[], rig)
  {
    forall k ensures Shown(defs, map[], rig, k) == None {
      LatestIsLast(defs, map[], rig, k);
    }
  }
}
