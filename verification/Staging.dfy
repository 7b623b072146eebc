/** Staging the values of one request: each channel takes its value in turn, and the mode master of the
    function it lies in is moved into the range that function needs. */
module Staging {
  import opened Prelude
  import opened ChannelMap
  import opened ParameterModel
  import opened Faders
  import opened ChannelValues
  import opened ProgrammerModel

  // ---------------------------------------------------------------- mode masters

  /** The channel a link names: the last candidate of the dependent's own geometry, else the only one. */
  function MasterChannel(prof: Profile, instance: string, channel: string, n: nat): (int, nat, int)
    requires |prof.details| == |prof.model.parameters| && n <= |prof.details|
  {
    if n == 0 then (-1, 0, -1)
    else
      var (own, count, last) := MasterChannel(prof, instance, channel, n - 1);
      if prof.details[n - 1].channelName != channel then (own, count, last)
      else (if prof.model.parameters[n - 1].instance == instance then n - 1 else own, count + 1, n - 1)
  }

  function LinkedChannel(prof: Profile, instance: string, channel: string): Option<nat>
    requires |prof.details| == |prof.model.parameters|
  {
    var (own, count, last) := MasterChannel(prof, instance, channel, |prof.details|);
    if 0 <= own < |prof.details| then Some(own)
    else if count == 1 && 0 <= last < |prof.details| then Some(last)
    else None
  }

  datatype MasterRange = MasterRange(channel: nat, lo: uint32, hi: uint32)

  /** The master a function's link names and the range it has to lie in, when both can be told. */
  function MasterFor(prof: Profile, dep: Parameter, link: MasterLink): (r: Option<MasterRange>)
    requires |prof.details| == |prof.model.parameters|
    ensures r.Some? ==> r.value.channel < |prof.details|
  {
    match link
    case NoMaster => None
    case OtherLink(_) => None
    case ChannelLink(channel, hasMode, modeFrom, modeTo) =>
      var c := LinkedChannel(prof, dep.instance, channel);
      if c.None? || !hasMode || modeFrom < 0 || modeTo < modeFrom || modeTo > prof.model.parameters[c.value].max then None
      else Some(MasterRange(c.value, modeFrom, modeTo))
    case FunctionLink(channel, logical, name) =>
      var c := LinkedChannel(prof, dep.instance, channel);
      if c.None? then None
      else
        var fs := prof.details[c.value].functions;
        var i := FirstWith(fs, (f: Function) => f.logical == logical && f.name == name, 0);
        if i == |fs| then None else Some(MasterRange(c.value, fs[i].dmxFrom, fs[i].dmxTo))
  }

  /** A channel's value as things stand: staged, held, or its default. */
  function Current(values: Values, pending: Values, k: Key, d: ChannelDetail): Option<uint32>
  {
    if k in pending then Some(pending[k]) else if k in values then Some(values[k]) else if d.hasDefault then Some(d.default) else None
  }

  /** The wheel slot a value selects. */
  function SlotAt(fs: seq<Function>, v: uint32, i: nat): Option<int>
    requires i <= |fs|
    decreases |fs| - i
  {
    if i == |fs| then None
    else if fs[i].wheel == "" || !Contains(fs[i], v) then SlotAt(fs, v, i + 1)
    else
      match FirstSet(fs[i].sets, (s: ChannelSet) => s.hasWheelSlot && s.dmxFrom <= v <= s.dmxTo)
      case Some(s) => Some(s.wheelSlot)
      case None => SlotAt(fs, v, i + 1)
  }

  /** A value from lo to hi that selects the slot. */
  function SlotIn(fs: seq<Function>, slot: int, lo: uint32, hi: uint32, i: nat): (r: Option<uint32>)
    requires i <= |fs|
    ensures r.Some? ==> lo <= r.value <= hi
    decreases |fs| - i
  {
    if i == |fs| then None
    else if fs[i].wheel == "" then SlotIn(fs, slot, lo, hi, i + 1)
    else
      match FirstSet(fs[i].sets, (s: ChannelSet) => s.hasWheelSlot && s.wheelSlot == slot && lo <= SetValue(s) <= hi)
      case Some(s) => if lo <= SetValue(s) <= hi then Some(SetValue(s)) else None
      case None => SlotIn(fs, slot, lo, hi, i + 1)
  }

  /** Where a master outside the range goes: the same wheel slot if the range offers it, else the nearer end. */
  function MovedMaster(d: ChannelDetail, cur: Option<uint32>, lo: uint32, hi: uint32): uint32
  {
    match cur
    case None => lo
    case Some(v) =>
      var end := if v > hi then hi else lo;
      match SlotAt(d.functions, v, 0)
      case None => end
      case Some(slot) => (match SlotIn(d.functions, slot, lo, hi, 0) case Some(w) => w case None => end)
  }

  function Enforced(values: Values, pending: Values, k: Key, d: ChannelDetail, lo: uint32, hi: uint32): Values
  {
    var cur := Current(values, pending, k, d);
    if cur.Some? && lo <= cur.value <= hi then pending else pending[k := MovedMaster(d, cur, lo, hi)]
  }

  /** Afterwards the master lies in the range, and nothing but the master was touched. */
  lemma EnforcedInRange(values: Values, pending: Values, k: Key, d: ChannelDetail, lo: uint32, hi: uint32)
    requires lo <= hi
    ensures var now := Enforced(values, pending, k, d, lo, hi);
            var cur := Current(values, now, k, d);
            cur.Some? && lo <= cur.value <= hi &&
            forall other :: other != k ==> (other in now <==> other in pending) && (other in now ==> now[other] == pending[other])
  {
    hide SlotAt, SlotIn;
  }

  // ---------------------------------------------------------------- placing one value

  /** A channel of a match with the value asked of it, if it can take one. */
  datatype Place = Place(entry: string, channel: nat, asked: Result<Resolved, Why>)

  datatype Applied = Applied(entry: string, channel: nat, function_: int, value: uint32)

  datatype Staged = Staged(pending: Values, applied: seq<Applied>, skipped: seq<Place>)

  const NOTHING_STAGED := Staged(map[], [], [])

  /** The place is a channel of a fixture in the patch. */
  ghost predicate PlaceOk(profiles: Profiles, pl: Place)
  {
    pl.entry in profiles && pl.channel < |profiles[pl.entry].model.parameters| && |profiles[pl.entry].details| == |profiles[pl.entry].model.parameters|
  }

  function PlaceKey(profiles: Profiles, entry: string, channel: nat): Key
    requires entry in profiles && channel < |profiles[entry].model.parameters|
  {
    Key(entry, profiles[entry].model.parameters[channel].offset)
  }

  /** The function a placed value is reported in. */
  function PlacedIn(prof: Profile, channel: nat, res: Resolved, named: bool): int
    requires channel < |prof.details| == |prof.model.parameters|
  {
    if res.function_ < 0 && !named then ActiveFunction(prof.model.parameters[channel], prof.details[channel], res.value) else res.function_
  }

  /** The master the placed function needs. */
  function NeededMaster(prof: Profile, channel: nat, fi: int): (r: Option<MasterRange>)
    requires channel < |prof.details| == |prof.model.parameters|
    ensures r.Some? ==> r.value.channel < |prof.details|
  {
    if 0 <= fi < |prof.details[channel].functions|
    then MasterFor(prof, prof.model.parameters[channel], prof.details[channel].functions[fi].master)
    else None
  }

  function PlaceOne(profiles: Profiles, values: Values, staged: Staged, pl: Place, named: bool): Staged
    requires PlaceOk(profiles, pl)
  {
    match pl.asked
    case Err(_) => staged.(skipped := staged.skipped + [pl])
    case Ok(res) =>
      var prof := profiles[pl.entry];
      var fi := PlacedIn(prof, pl.channel, res, named);
      var pending := staged.pending[PlaceKey(profiles, pl.entry, pl.channel) := res.value];
      var need := NeededMaster(prof, pl.channel, fi);
      Staged(if need.None? then pending
             else Enforced(values, pending, PlaceKey(profiles, pl.entry, need.value.channel), prof.details[need.value.channel], need.value.lo, need.value.hi),
             staged.applied + [Applied(pl.entry, pl.channel, fi, res.value)],
             staged.skipped)
  }

  function PlaceAll(profiles: Profiles, values: Values, places: seq<Place>, named: bool): Staged
    requires forall i :: 0 <= i < |places| ==> PlaceOk(profiles, places[i])
  {
    if places == [] then NOTHING_STAGED
    else PlaceOne(profiles, values, PlaceAll(profiles, values, places[..|places| - 1], named), places[|places| - 1], named)
  }

  method PlaceLocked(profiles: Profiles, values: Values, staged: Staged, pl: Place, named: bool) returns (now: Staged)
    requires PlaceOk(profiles, pl)
    ensures now == PlaceOne(profiles, values, staged, pl, named)
  {
    hide ActiveFunction, MasterFor, Enforced;
    if pl.asked.Err? {
      return staged.(skipped := staged.skipped + [pl]);
    }
    var prof, v, fi := profiles[pl.entry], pl.asked.value.value, pl.asked.value.function_;
    if fi < 0 && !named {
      fi := ActiveFunction(prof.model.parameters[pl.channel], prof.details[pl.channel], v);
    }
    var pending := staged.pending[PlaceKey(profiles, pl.entry, pl.channel) := v];
    if 0 <= fi < |prof.details[pl.channel].functions| {
      var need := MasterFor(prof, prof.model.parameters[pl.channel], prof.details[pl.channel].functions[fi].master);
      if need.Some? {
        pending := Enforced(values, pending, PlaceKey(profiles, pl.entry, need.value.channel), prof.details[need.value.channel], need.value.lo, need.value.hi);
      }
    }
    now := Staged(pending, staged.applied + [Applied(pl.entry, pl.channel, fi, v)], staged.skipped);
  }

  // ---------------------------------------------------------------- what staging leaves behind

  /** Only channels of fixtures in the patch are staged. */
  ghost predicate OnChannels(profiles: Profiles, pending: Values)
  {
    forall k :: k in pending ==> k.entry in profiles && exists i :: 0 <= i < |profiles[k.entry].model.parameters| && profiles[k.entry].model.parameters[i].offset == k.offset
  }

  /** Every place was applied or skipped, in order; only channels were staged. */
  lemma {:induction false} PlacedAll(profiles: Profiles, values: Values, places: seq<Place>, named: bool)
    requires forall i :: 0 <= i < |places| ==> PlaceOk(profiles, places[i])
    ensures var st := PlaceAll(profiles, values, places, named);
            OnChannels(profiles, st.pending) && |st.applied| + |st.skipped| == |places| &&
            (forall a :: a in st.applied ==> exists i :: 0 <= i < |places| && places[i].entry == a.entry && places[i].channel == a.channel && places[i].asked.Ok? && places[i].asked.value.value == a.value) &&
            (st.applied == [] <==> forall i :: 0 <= i < |places| ==> places[i].asked.Err?)
  {
    if places != [] {
      var n := |places| - 1;
      var init := places[..n];
      assert forall i :: 0 <= i < n ==> init[i] == places[i];
      PlacedAll(profiles, values, init, named);
      var before := PlaceAll(profiles, values, init, named);
      hide PlaceAll;
      PlacedOne(profiles, values, before, places[n], named);
    }
  }

  lemma PlacedOne(profiles: Profiles, values: Values, staged: Staged, pl: Place, named: bool)
    requires PlaceOk(profiles, pl) && OnChannels(profiles, staged.pending)
    ensures var now := PlaceOne(profiles, values, staged, pl, named);
            OnChannels(profiles, now.pending) &&
            (if pl.asked.Err? then now == staged.(skipped := staged.skipped + [pl])
             else now.skipped == staged.skipped && |now.applied| == |staged.applied| + 1 && now.applied[..|staged.applied|] == staged.applied &&
                  now.applied[|staged.applied|].entry == pl.entry && now.applied[|staged.applied|].channel == pl.channel &&
                  now.applied[|staged.applied|].value == pl.asked.value.value)
  {
    hide ActiveFunction, MasterFor, MovedMaster;
  }

  /** The master place i needs, if it needs one. */
  function MasterOf(profiles: Profiles, pl: Place, named: bool): Option<MasterRange>
    requires PlaceOk(profiles, pl)
  {
    if pl.asked.Err? then None
    else NeededMaster(profiles[pl.entry], pl.channel, PlacedIn(profiles[pl.entry], pl.channel, pl.asked.value, named))
  }

  function MasterKey(profiles: Profiles, pl: Place, named: bool): Key
    requires PlaceOk(profiles, pl) && MasterOf(profiles, pl, named).Some?
  {
    PlaceKey(profiles, pl.entry, MasterOf(profiles, pl, named).value.channel)
  }

  /** The master a place needs is another channel, with a range the right way round. */
  ghost predicate OwnMasterOk(profiles: Profiles, pl: Place, named: bool)
    requires PlaceOk(profiles, pl)
  {
    MasterOf(profiles, pl, named).Some? ==>
      MasterKey(profiles, pl, named) != PlaceKey(profiles, pl.entry, pl.channel) &&
      MasterOf(profiles, pl, named).value.lo <= MasterOf(profiles, pl, named).value.hi
  }

  /** Two places are different channels, neither a master of the other, and where they need the same
      master they need it in the same range. */
  ghost predicate GetAlong(profiles: Profiles, pl: Place, other: Place, named: bool)
    requires PlaceOk(profiles, pl) && PlaceOk(profiles, other)
  {
    var need, need' := MasterOf(profiles, pl, named), MasterOf(profiles, other, named);
    PlaceKey(profiles, pl.entry, pl.channel) != PlaceKey(profiles, other.entry, other.channel) &&
    (need.Some? ==> MasterKey(profiles, pl, named) != PlaceKey(profiles, other.entry, other.channel)) &&
    (need'.Some? ==> MasterKey(profiles, other, named) != PlaceKey(profiles, pl.entry, pl.channel)) &&
    (need.Some? && need'.Some? && MasterKey(profiles, pl, named) == MasterKey(profiles, other, named) ==> need == need')
  }

  ghost predicate Compatible(profiles: Profiles, places: seq<Place>, named: bool)
    requires forall i :: 0 <= i < |places| ==> PlaceOk(profiles, places[i])
  {
    (forall i :: 0 <= i < |places| ==> OwnMasterOk(profiles, places[i], named)) &&
    forall i, j :: 0 <= i < j < |places| ==> GetAlong(profiles, places[j], places[i], named)
  }

  /** Place i has the value it was given, and the master it needs is where it needs it. */
  ghost predicate Stands(profiles: Profiles, values: Values, pending: Values, pl: Place, named: bool)
    requires PlaceOk(profiles, pl)
  {
    var k := PlaceKey(profiles, pl.entry, pl.channel);
    pl.asked.Ok? ==>
      k in pending && pending[k] == pl.asked.value.value &&
      var need := MasterOf(profiles, pl, named);
      need.Some? ==>
        var cur := Current(values, pending, MasterKey(profiles, pl, named), profiles[pl.entry].details[need.value.channel]);
        cur.Some? && need.value.lo <= cur.value <= need.value.hi
  }

  lemma PlacedStands(profiles: Profiles, values: Values, staged: Staged, pl: Place, named: bool)
    requires PlaceOk(profiles, pl)
    requires OwnMasterOk(profiles, pl, named)
    ensures Stands(profiles, values, PlaceOne(profiles, values, staged, pl, named).pending, pl, named)
    ensures var now := PlaceOne(profiles, values, staged, pl, named).pending;
            forall k :: k != PlaceKey(profiles, pl.entry, pl.channel) && (MasterOf(profiles, pl, named).Some? ==> k != MasterKey(profiles, pl, named)) ==>
              (k in now <==> k in staged.pending) && (k in now ==> now[k] == staged.pending[k])
  {
    if pl.asked.Ok? {
      var prof := profiles[pl.entry];
      var need := MasterOf(profiles, pl, named);
      var pending := staged.pending[PlaceKey(profiles, pl.entry, pl.channel) := pl.asked.value.value];
      hide ActiveFunction, MasterFor, Enforced;
      if need.Some? {
        EnforcedInRange(values, pending, MasterKey(profiles, pl, named), prof.details[need.value.channel], need.value.lo, need.value.hi);
      }
    }
  }

  /** A master another place needs stays in its range when it is needed again. */
  lemma MasterStays(profiles: Profiles, values: Values, staged: Staged, pl: Place, other: Place, named: bool)
    requires PlaceOk(profiles, pl) && PlaceOk(profiles, other) && Stands(profiles, values, staged.pending, other, named)
    requires OwnMasterOk(profiles, pl, named) && GetAlong(profiles, pl, other, named)
    ensures Stands(profiles, values, PlaceOne(profiles, values, staged, pl, named).pending, other, named)
  {
    PlacedStands(profiles, values, staged, pl, named);
    hide PlaceOne, PlacedIn, NeededMaster, PlaceKey;
  }

  lemma PlacedLast(profiles: Profiles, values: Values, places: seq<Place>, named: bool)
    requires places != [] && forall j :: 0 <= j < |places| ==> PlaceOk(profiles, places[j])
    ensures PlaceAll(profiles, values, places, named) ==
              PlaceOne(profiles, values, PlaceAll(profiles, values, places[..|places| - 1], named), places[|places| - 1], named)
  {
    hide PlaceOne, PlaceOk;
  }

  /** A request whose channels get along does all it says: every channel that could take its value has
      it, and every mode master its functions need is in range at the end. */
  lemma {:induction false} AllStand(profiles: Profiles, values: Values, places: seq<Place>, named: bool, i: nat)
    requires forall j :: 0 <= j < |places| ==> PlaceOk(profiles, places[j])
    requires Compatible(profiles, places, named) && i < |places|
    ensures Stands(profiles, values, PlaceAll(profiles, values, places, named).pending, places[i], named)
  {
    var n := |places| - 1;
    var init := places[..n];
    PlacedLast(profiles, values, places, named);
    hide *;
    if i < n {
      AllStand(profiles, values, init, named, i);
      MasterStays(profiles, values, PlaceAll(profiles, values, init, named), places[n], places[i], named);
    } else {
      PlacedStands(profiles, values, PlaceAll(profiles, values, init, named), places[n], named);
    }
  }
}
