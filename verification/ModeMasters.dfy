/** Which channel a function's mode master link names, and what becomes of it when the function is asked
    for, told by the profile's names and ranges. */
module ModeMasters {
  import opened Prelude
  import opened ChannelMap
  import opened ChannelValues
  import opened ValueLaws
  import opened ProgrammerModel
  import opened Staging

  // ---------------------------------------------------------------- the channel a link names

  predicate Candidate(prof: Profile, channel: string, i: int)
  {
    0 <= i < |prof.details| && prof.details[i].channelName == channel
  }

  /** Channel c is the one of that name on the instance, the last if there are more; or the only one of that name. */
  ghost predicate Linked(prof: Profile, instance: string, channel: string, c: int)
    requires |prof.details| == |prof.model.parameters|
  {
    Candidate(prof, channel, c) &&
    ((prof.model.parameters[c].instance == instance &&
      forall i :: Candidate(prof, channel, i) && prof.model.parameters[i].instance == instance ==> i <= c) ||
     forall i :: Candidate(prof, channel, i) ==> i == c)
  }

  /** What the search has met among the first n channels: the last on the instance, how many, and the last. */
  ghost predicate Met(prof: Profile, instance: string, channel: string, n: nat, own: int, count: nat, last: int)
    requires |prof.details| == |prof.model.parameters| && n <= |prof.details|
  {
    -1 <= own < n && -1 <= last < n && (count == 0 <==> last < 0) &&
    (own >= 0 ==> Candidate(prof, channel, own) && prof.model.parameters[own].instance == instance) &&
    (forall i :: Candidate(prof, channel, i) && i < n && prof.model.parameters[i].instance == instance ==> i <= own) &&
    (last >= 0 ==> Candidate(prof, channel, last)) && (forall i :: Candidate(prof, channel, i) && i < n ==> i <= last) &&
    (count == 1 <==> last >= 0 && forall i :: Candidate(prof, channel, i) && i < n ==> i == last)
  }

  lemma {:induction false} SearchMeets(prof: Profile, instance: string, channel: string, n: nat)
    requires |prof.details| == |prof.model.parameters| && n <= |prof.details|
    ensures var (own, count, last) := MasterChannel(prof, instance, channel, n); Met(prof, instance, channel, n, own, count, last)
  {
    if n > 0 {
      SearchMeets(prof, instance, channel, n - 1);
      var (own, count, last) := MasterChannel(prof, instance, channel, n - 1);
      MeetsNext(prof, instance, channel, n - 1, own, count, last);
    }
  }

  lemma MeetsNext(prof: Profile, instance: string, channel: string, n: nat, own: int, count: nat, last: int)
    requires |prof.details| == |prof.model.parameters| && n < |prof.details| && Met(prof, instance, channel, n, own, count, last)
    ensures if Candidate(prof, channel, n)
            then Met(prof, instance, channel, n + 1, if prof.model.parameters[n].instance == instance then n else own, count + 1, n)
            else Met(prof, instance, channel, n + 1, own, count, last)
  {}

  lemma LinkedIs(prof: Profile, instance: string, channel: string, c: nat)
    requires |prof.details| == |prof.model.parameters|
    ensures LinkedChannel(prof, instance, channel) == Some(c) <==> Linked(prof, instance, channel, c)
  {
    SearchMeets(prof, instance, channel, |prof.details|);
  }

  // ---------------------------------------------------------------- the range a function needs

  /** The function of channel c of that logical attribute and name runs from lo to hi; of several, the first. */
  ghost predicate FunctionRuns(fs: seq<Function>, logical: string, name: string, lo: int, hi: int)
  {
    exists i :: 0 <= i < |fs| && fs[i].logical == logical && fs[i].name == name && fs[i].dmxFrom == lo && fs[i].dmxTo == hi &&
                forall j :: 0 <= j < i ==> fs[j].logical != logical || fs[j].name != name
  }

  /** The link needs channel c to lie from lo to hi: its own range of a channel, where that is one, or the
      range of a function of it. */
  ghost predicate Needs(prof: Profile, instance: string, link: MasterLink, c: int, lo: int, hi: int)
    requires |prof.details| == |prof.model.parameters|
  {
    match link
    case ChannelLink(channel, hasMode, modeFrom, modeTo) =>
      Linked(prof, instance, channel, c) && hasMode && lo == modeFrom && hi == modeTo && 0 <= lo <= hi <= prof.model.parameters[c].max
    case FunctionLink(channel, logical, name) =>
      Linked(prof, instance, channel, c) && FunctionRuns(prof.details[c].functions, logical, name, lo, hi)
    case _ => false
  }

  lemma FunctionRunsAt(fs: seq<Function>, logical: string, name: string, lo: int, hi: int)
    ensures var i := FirstWith(fs, (f: Function) => f.logical == logical && f.name == name, 0);
            FunctionRuns(fs, logical, name, lo, hi) <==> i < |fs| && fs[i].dmxFrom == lo && fs[i].dmxTo == hi
  {}

  lemma LinkedIn(prof: Profile, instance: string, channel: string, c: nat)
    requires |prof.details| == |prof.model.parameters| && Linked(prof, instance, channel, c)
    ensures c < |prof.details|
  {}

  lemma MasterIs(prof: Profile, dep: Parameter, link: MasterLink, c: nat, lo: uint32, hi: uint32)
    requires |prof.details| == |prof.model.parameters|
    ensures MasterFor(prof, dep, link) == Some(MasterRange(c, lo, hi)) <==> Needs(prof, dep.instance, link, c, lo, hi)
  {
    hide LinkedChannel, Linked, FunctionRuns;
    if link.ChannelLink? || link.FunctionLink? {
      LinkedIs(prof, dep.instance, link.channel, c);
      if Linked(prof, dep.instance, link.channel, c) {
        LinkedIn(prof, dep.instance, link.channel, c);
        if link.FunctionLink? {
          FunctionRunsAt(prof.details[c].functions, link.logical, link.name, lo, hi);
        }
      }
    }
  }

  // ---------------------------------------------------------------- the slot a wheel shows

  /** Set j of function i, on a wheel, is the slot value v shows. */
  predicate ShowsSlot(fs: seq<Function>, v: int, i: int, j: int)
  {
    0 <= i < |fs| && fs[i].wheel != "" && fs[i].dmxFrom <= v <= fs[i].dmxTo &&
    0 <= j < |fs[i].sets| && fs[i].sets[j].hasWheelSlot && fs[i].sets[j].dmxFrom <= v <= fs[i].sets[j].dmxTo
  }

  ghost predicate Slotted(fs: seq<Function>, v: int, slot: int)
  {
    exists i, j :: ShowsSlot(fs, v, i, j) && fs[i].sets[j].wheelSlot == slot && forall k, l :: k < i || (k == i && l < j) ==> !ShowsSlot(fs, v, k, l)
  }

  /** Set j of function i, on a wheel, offers the slot at w, between lo and hi. */
  predicate OffersSlot(fs: seq<Function>, slot: int, lo: int, hi: int, i: int, j: int, w: int)
  {
    0 <= i < |fs| && fs[i].wheel != "" && 0 <= j < |fs[i].sets| && fs[i].sets[j].hasWheelSlot && fs[i].sets[j].wheelSlot == slot &&
    Selects(fs[i].sets[j], w) && lo <= w <= hi
  }

  ghost predicate FirstOffer(fs: seq<Function>, slot: int, lo: int, hi: int, w: int)
  {
    exists i, j :: OffersSlot(fs, slot, lo, hi, i, j, w) && forall k, l, x :: k < i || (k == i && l < j) ==> !OffersSlot(fs, slot, lo, hi, k, l, x)
  }

  lemma {:induction false} SlotAtIs(fs: seq<Function>, v: uint32, n: nat)
    requires n <= |fs| && forall k, l :: k < n ==> !ShowsSlot(fs, v, k, l)
    ensures match SlotAt(fs, v, n)
            case Some(slot) => Slotted(fs, v, slot)
            case None => forall k, l :: !ShowsSlot(fs, v, k, l)
    decreases |fs| - n
  {
    if n < |fs| {
      var test := (s: ChannelSet) => s.hasWheelSlot && s.dmxFrom <= v <= s.dmxTo;
      var at := FirstSetAt(fs[n].sets, test);
      if fs[n].wheel == "" || !Contains(fs[n], v) || at == |fs[n].sets| {
        SlotAtIs(fs, v, n + 1);
      } else {
        assert ShowsSlot(fs, v, n, at);
      }
    }
  }

  lemma {:induction false} SlotInIs(fs: seq<Function>, slot: int, lo: uint32, hi: uint32, n: nat)
    requires n <= |fs| && forall k, l, x :: k < n ==> !OffersSlot(fs, slot, lo, hi, k, l, x)
    ensures match SlotIn(fs, slot, lo, hi, n)
            case Some(w) => FirstOffer(fs, slot, lo, hi, w)
            case None => forall k, l, x :: !OffersSlot(fs, slot, lo, hi, k, l, x)
    decreases |fs| - n
  {
    if n < |fs| {
      var test := (s: ChannelSet) => s.hasWheelSlot && s.wheelSlot == slot && lo <= SetValue(s) <= hi;
      var at := FirstSetAt(fs[n].sets, test);
      forall l, x ensures OffersSlot(fs, slot, lo, hi, n, l, x) ==> fs[n].wheel != "" && test(fs[n].sets[l]) && x == SetValue(fs[n].sets[l]) {
        if 0 <= l < |fs[n].sets| {
          SetValueSelects(fs[n].sets[l]);
        }
      }
      if fs[n].wheel == "" || at == |fs[n].sets| {
        SlotInIs(fs, slot, lo, hi, n + 1);
      } else {
        SetValueSelects(fs[n].sets[at]);
        assert OffersSlot(fs, slot, lo, hi, n, at, SetValue(fs[n].sets[at]));
      }
    }
  }

  // ---------------------------------------------------------------- a master moved

  /** The channel stands at v: as staged, or as held, or at its default. */
  predicate StandsAt(values: Values, pending: Values, k: Key, d: ChannelDetail, v: int)
  {
    if k in pending then v == pending[k] else if k in values then v == values[k] else d.hasDefault && v == d.default
  }

  /** The slot that v shows is offered from lo to hi, at x. */
  ghost predicate Offered(fs: seq<Function>, v: int, lo: int, hi: int, x: int)
  {
    exists slot :: Slotted(fs, v, slot) && FirstOffer(fs, slot, lo, hi, x)
  }

  /** From v outside the range a master goes to the slot v shows, where the range offers it, else to the nearer end. */
  ghost predicate GoesTo(fs: seq<Function>, v: int, lo: int, hi: int, w: int)
  {
    Offered(fs, v, lo, hi, w) || ((forall x :: !Offered(fs, v, lo, hi, x)) && w == if v > hi then hi else lo)
  }

  lemma SlotsAgree(fs: seq<Function>, v: int, slot: int, slot': int)
    requires Slotted(fs, v, slot) && Slotted(fs, v, slot')
    ensures slot == slot'
  {}

  lemma MovedTo(d: ChannelDetail, v: uint32, lo: uint32, hi: uint32)
    ensures GoesTo(d.functions, v, lo, hi, MovedMaster(d, Some(v), lo, hi))
  {
    var fs := d.functions;
    SlotAtIs(fs, v, 0);
    hide SlotAt, SlotIn, Slotted;
    match SlotAt(fs, v, 0)
    case None =>
      NothingSlotted(fs, v);
    case Some(slot) =>
      SlotInIs(fs, slot, lo, hi, 0);
      if x :| Offered(fs, v, lo, hi, x) {
        var other :| Slotted(fs, v, other) && FirstOffer(fs, other, lo, hi, x);
        SlotsAgree(fs, v, slot, other);
      }
  }

  lemma NothingSlotted(fs: seq<Function>, v: int)
    requires forall k, l :: !ShowsSlot(fs, v, k, l)
    ensures forall slot :: !Slotted(fs, v, slot)
  {}

  /** now is pending with the master at k in its range: as it was where it lay there, else moved, from its
      place, or to the lower end where that is not known. */
  ghost predicate InRangeNow(values: Values, pending: Values, k: Key, d: ChannelDetail, lo: int, hi: int, now: Values)
  {
    if exists v :: StandsAt(values, pending, k, d, v) && lo <= v <= hi then now == pending
    else
      k in now && now == pending[k := now[k]] && (forall v :: StandsAt(values, pending, k, d, v) ==> GoesTo(d.functions, v, lo, hi, now[k])) &&
      ((forall v :: !StandsAt(values, pending, k, d, v)) ==> now[k] == lo)
  }

  lemma EnforcedExactly(values: Values, pending: Values, k: Key, d: ChannelDetail, lo: uint32, hi: uint32)
    ensures InRangeNow(values, pending, k, d, lo, hi, Enforced(values, pending, k, d, lo, hi))
  {
    hide MovedMaster, GoesTo;
    var cur := Current(values, pending, k, d);
    if cur.Some? {
      MovedTo(d, cur.value, lo, hi);
      assert StandsAt(values, pending, k, d, cur.value);
    } else {
      MovedUnknown(d, lo, hi);
    }
  }

  lemma MovedUnknown(d: ChannelDetail, lo: uint32, hi: uint32)
    ensures MovedMaster(d, None, lo, hi) == lo
  {}

  // ---------------------------------------------------------------- a value placed

  /** v lies in function i. */
  predicate Lies(fs: seq<Function>, v: int, i: int)
  {
    0 <= i < |fs| && fs[i].dmxFrom <= v <= fs[i].dmxTo
  }

  /** fi is the only function v lies in, or, where there are several, the first of the channel's own attribute. */
  ghost predicate ActiveAt(attribute: string, fs: seq<Function>, v: int, fi: int)
  {
    Lies(fs, v, fi) &&
    if forall i :: Lies(fs, v, i) ==> i == fi then true
    else fs[fi].attribute == attribute && forall i :: 0 <= i < fi && Lies(fs, v, i) ==> fs[i].attribute != attribute
  }

  lemma ActiveIs(p: Parameter, d: ChannelDetail, v: uint32, fi: nat)
    ensures ActiveFunction(p, d, v) == fi <==> ActiveAt(p.attribute, d.functions, v, fi)
  {
    var fs := d.functions;
    var i := FirstWith(fs, (f: Function) => Contains(f, v), 0);
    assert forall n :: 0 <= n < |fs| ==> (Lies(fs, v, n) <==> Contains(fs[n], v));
    if i < |fs| {
      var j := FirstWith(fs, (f: Function) => Contains(f, v), i + 1);
    }
  }

  /** The function a value is reported in: the one it was asked in, or, where none is named, the active one. */
  ghost predicate ReportedIn(prof: Profile, channel: nat, res: Resolved, named: bool, fi: int)
    requires channel < |prof.details| == |prof.model.parameters|
  {
    if res.function_ >= 0 || named then fi == res.function_
    else if fi >= 0 then ActiveAt(prof.model.parameters[channel].attribute, prof.details[channel].functions, res.value, fi)
    else fi == -1 && forall i :: !ActiveAt(prof.model.parameters[channel].attribute, prof.details[channel].functions, res.value, i)
  }

  lemma PlacedInIs(prof: Profile, channel: nat, res: Resolved, named: bool)
    requires channel < |prof.details| == |prof.model.parameters|
    ensures ReportedIn(prof, channel, res, named, PlacedIn(prof, channel, res, named))
  {
    hide ActiveAt;
    var p, d := prof.model.parameters[channel], prof.details[channel];
    forall i ensures ActiveAt(p.attribute, d.functions, res.value, i) ==> i >= 0 && ActiveFunction(p, d, res.value) == i {
      if i >= 0 {
        ActiveIs(p, d, res.value, i);
      } else {
        NotActive(p.attribute, d.functions, res.value, i);
      }
    }
    var fi := ActiveFunction(p, d, res.value);
    ActiveLeast(p, d, res.value);
    if fi >= 0 {
      ActiveIs(p, d, res.value, fi);
    }
  }

  lemma NotActive(attribute: string, fs: seq<Function>, v: int, i: int)
    requires i < 0
    ensures !ActiveAt(attribute, fs, v, i)
  {}

  lemma ActiveLeast(p: Parameter, d: ChannelDetail, v: uint32)
    ensures ActiveFunction(p, d, v) >= -1
  {}

  /** Function fi of the channel needs master c from lo to hi. */
  ghost predicate NeedsOf(prof: Profile, channel: nat, fi: int, c: int, lo: int, hi: int)
    requires channel < |prof.details| == |prof.model.parameters|
  {
    0 <= fi < |prof.details[channel].functions| &&
    Needs(prof, prof.model.parameters[channel].instance, prof.details[channel].functions[fi].master, c, lo, hi)
  }

  /** A value that is taken is staged and reported, the function it lies in with it; the master that function
      needs, if it needs one, is in its range then, and nothing else is touched. One that is not taken is
      skipped. */
  lemma PlacedExactly(profiles: Profiles, values: Values, staged: Staged, pl: Place, named: bool) returns (fi: int)
    requires PlaceOk(profiles, pl)
    ensures var now, prof := PlaceOne(profiles, values, staged, pl, named), profiles[pl.entry];
            (pl.asked.Err? ==> now.pending == staged.pending && now.applied == staged.applied && now.skipped == staged.skipped + [pl]) &&
            (pl.asked.Ok? ==>
               var res, put := pl.asked.value, staged.pending[Key(pl.entry, prof.model.parameters[pl.channel].offset) := pl.asked.value.value];
               ReportedIn(prof, pl.channel, res, named, fi) &&
               now.applied == staged.applied + [Applied(pl.entry, pl.channel, fi, res.value)] && now.skipped == staged.skipped &&
               ((forall c, lo, hi :: !NeedsOf(prof, pl.channel, fi, c, lo, hi)) ==> now.pending == put) &&
               forall c, lo, hi :: NeedsOf(prof, pl.channel, fi, c, lo, hi) ==>
                 0 <= c < |prof.details| && InRangeNow(values, put, Key(pl.entry, prof.model.parameters[c].offset), prof.details[c], lo, hi, now.pending))
  {
    fi := -1;
    if pl.asked.Ok? {
      var prof := profiles[pl.entry];
      fi := PlacedIn(prof, pl.channel, pl.asked.value, named);
      PlacedInIs(prof, pl.channel, pl.asked.value, named);
      hide ActiveFunction, PlacedIn, Enforced, ReportedIn, InRangeNow, MasterFor, Needs;
      NeededIs(prof, pl.channel, fi);
      var need := NeededMaster(prof, pl.channel, fi);
      if need.Some? {
        var put := staged.pending[Key(pl.entry, prof.model.parameters[pl.channel].offset) := pl.asked.value.value];
        EnforcedExactly(values, put, PlaceKey(profiles, pl.entry, need.value.channel), prof.details[need.value.channel], need.value.lo, need.value.hi);
        assert NeedsOf(prof, pl.channel, fi, need.value.channel, need.value.lo, need.value.hi);
      }
    }
  }

  lemma NeededIs(prof: Profile, channel: nat, fi: int)
    requires channel < |prof.details| == |prof.model.parameters|
    ensures var need := NeededMaster(prof, channel, fi);
            (need.None? ==> forall c, lo, hi :: !NeedsOf(prof, channel, fi, c, lo, hi)) &&
            (need.Some? ==> forall c, lo, hi :: NeedsOf(prof, channel, fi, c, lo, hi) <==> c == need.value.channel && lo == need.value.lo && hi == need.value.hi)
  {
    hide Needs, MasterFor;
    if 0 <= fi < |prof.details[channel].functions| {
      var dep, link := prof.model.parameters[channel], prof.details[channel].functions[fi].master;
      forall c, lo, hi | Needs(prof, dep.instance, link, c, lo, hi)
        ensures var need := NeededMaster(prof, channel, fi); need.Some? && c == need.value.channel && lo == need.value.lo && hi == need.value.hi
      {
        NeedsInside(prof, dep.instance, link, c, lo, hi);
        MasterIs(prof, dep, link, c, lo, hi);
      }
      var need := NeededMaster(prof, channel, fi);
      if need.Some? {
        MasterIs(prof, dep, link, need.value.channel, need.value.lo, need.value.hi);
      }
    }
  }

  lemma NeedsInside(prof: Profile, instance: string, link: MasterLink, c: int, lo: int, hi: int)
    requires |prof.details| == |prof.model.parameters| && Needs(prof, instance, link, c, lo, hi)
    ensures 0 <= lo <= 0xFFFF_FFFF && 0 <= hi <= 0xFFFF_FFFF && 0 <= c < |prof.details|
  {}
}
