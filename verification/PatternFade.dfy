/** Pattern fades. On every tick the composed frames are taken over unit by unit: a unit whose source
    changed fades from what was showing, a unit nothing writes any more fades out, and everything else
    shows what was composed. */
module PatternFade {
  import opened Prelude
  import opened PatternSlots
  import opened PatternFrames

  const MAX_PATTERN_FADE: real := 30.0

  datatype Fade = Fade(from: nat, start: real, duration: real)

  type Fades = map<UnitKey, Fade>

  /** What the rig check keeps from tick to tick. */
  datatype FadeState = FadeState(units: Units, fades: Fades, frames: Frames)

  /** One tick: who wrote what, the frames composed, the frames a newly scoped fixture starts from, the
      universes started so far, the fade time set and the time now. */
  datatype Tick = Tick(writers: Writers, frames: Frames, initial: Frames, started: set<uint16>, fadeTime: real, now: real)

  // ---------------------------------------------------------------- arithmetic of one fade

  function Progress(f: Fade, now: real): real
    requires f.duration > 0.0
  {
    (now - f.start) / f.duration
  }

  /** The fade's progress has reached its end. */
  predicate Done(f: Fade, now: real)
    requires f.duration > 0.0
  {
    now - f.start >= f.duration
  }

  lemma DoneIs(f: Fade, now: real)
    requires f.duration > 0.0
    ensures Done(f, now) <==> Progress(f, now) >= 1.0
    ensures now == f.start ==> Progress(f, now) == 0.0
  {}

  function Mix(from: real, to: real, progress: real): real
  {
    from + (to - from) * progress
  }

  function Interpolate(from: nat, to: nat, progress: real): int
  {
    Round(Mix(from as real, to as real, if progress < 0.0 then 0.0 else progress))
  }

  lemma MixGrows(from: real, to: real, p: real, q: real)
    requires p <= q
    ensures from <= to ==> Mix(from, to, p) <= Mix(from, to, q)
    ensures to <= from ==> Mix(from, to, p) >= Mix(from, to, q)
  {}

  lemma MixEnds(from: real, to: real)
    ensures Mix(from, to, 0.0) == from && Mix(from, to, 1.0) == to
  {}

  /** Towards one target a fade never turns back. */
  lemma InterpolateMonotone(from: nat, to: nat, progress: real, later: real)
    requires progress <= later
    ensures from <= to ==> Interpolate(from, to, progress) <= Interpolate(from, to, later)
    ensures to <= from ==> Interpolate(from, to, progress) >= Interpolate(from, to, later)
  {
    hide Mix, Round;
    var p, q := if progress < 0.0 then 0.0 else progress, if later < 0.0 then 0.0 else later;
    MixGrows(from as real, to as real, p, q);
  }

  /** A fade starts at its start, stays between start and target, and would end at the target. */
  lemma InterpolateBetween(from: nat, to: nat, progress: real)
    requires progress <= 1.0
    ensures from <= to ==> from <= Interpolate(from, to, progress) <= to
    ensures to <= from ==> to <= Interpolate(from, to, progress) <= from
    ensures progress <= 0.0 ==> Interpolate(from, to, progress) == from
    ensures progress == 1.0 ==> Interpolate(from, to, progress) == to
  {
    hide Mix, Round;
    MixEnds(from as real, to as real);
    var p := if progress < 0.0 then 0.0 else progress;
    assert Interpolate(from, to, progress) == Interpolate(from, to, p);
    InterpolateMonotone(from, to, 0.0, p);
    InterpolateMonotone(from, to, p, 1.0);
  }

  /** A fade shows the share of the way that has gone by, to the nearest step. */
  lemma InterpolateStraight(from: nat, to: nat, progress: real)
    requires 0.0 <= progress
    ensures -0.5 <= from as real + (to as real - from as real) * progress - Interpolate(from, to, progress) as real <= 0.5
  {
    hide Round;
  }

  // ---------------------------------------------------------------- one tick, unit by unit

  function Removed(u: Unit): Unit
  {
    u.(source := Source(u.source.entry, "", 0.0, 0, true))
  }

  /** A unit nothing drives any more stays while its slots are free and it has a fade to finish, or to begin. */
  predicate Stays(s: FadeState, t: Tick, k: UnitKey)
  {
    k in s.units && !Whole(t.writers, k) && CoarseSlot(k) !in t.writers && (k.fine != 0 ==> FineSlot(k) !in t.writers) &&
    (s.units[k].source.removed ==> k in s.fades)
  }

  function NextUnits(s: FadeState, t: Tick): Units
  {
    WholeUnits(t.writers) + map k | k in s.units && Stays(s, t, k) :: Removed(s.units[k])
  }

  predicate Driven(units: Units, entry: string)
  {
    exists k :: k in units && units[k].source.entry == entry
  }

  predicate Changed(s: FadeState, k: UnitKey, u: Unit)
  {
    k !in s.units || s.units[k].source != u.source || s.units[k].fade != u.fade
  }

  /** Where a unit that changes fades from: what it showed, or the start state of an entry new to the pattern. */
  function StartValue(s: FadeState, t: Tick, k: UnitKey, u: Unit): nat
    requires KeyOk(k)
  {
    if Driven(s.units, u.source.entry) then UnitValue(s.frames, k) else UnitValue(t.initial, k)
  }

  function FadeNow(s: FadeState, t: Tick, k: UnitKey, u: Unit): Option<Fade>
    requires KeyOk(k)
  {
    if Changed(s, k, u)
    then if u.fade && t.fadeTime > 0.0 then Some(Fade(StartValue(s, t, k, u), t.now, t.fadeTime)) else None
    else if k in s.fades then Some(s.fades[k]) else None
  }

  ghost predicate FadesOk(fades: Fades)
  {
    forall k :: k in fades ==> KeyOk(k) && fades[k].duration > 0.0 && fades[k].from < if k.fine == 0 then 0x100 else 0x1_0000
  }

  predicate Running(s: FadeState, t: Tick, k: UnitKey, u: Unit)
    requires KeyOk(k) && (k in s.fades ==> s.fades[k].duration > 0.0)
  {
    var f := FadeNow(s, t, k, u);
    f.Some? && !Done(f.value, t.now)
  }

  ghost function NextFades(s: FadeState, t: Tick): Fades
    requires FadesOk(s.fades) && Disjoint(NextUnits(s, t))
  {
    var units := NextUnits(s, t);
    map k | k in units && Running(s, t, k, units[k]) :: FadeNow(s, t, k, units[k]).value
  }

  function Base(t: Tick): Frames
  {
    WithStarted(t.frames, t.started)
  }

  /** What the running fades show. */
  ghost function FadeValues(s: FadeState, t: Tick): map<UnitKey, nat>
    requires FadesOk(s.fades) && Disjoint(NextUnits(s, t))
  {
    var fades := NextFades(s, t);
    map k | k in fades :: Shade(fades[k], UnitValue(Base(t), k), t.now)
  }

  /** A running fade's value; it does not leave what its two ends span. */
  function ShadeAt(from: nat, to: nat, progress: real): (v: nat)
    requires progress < 1.0
    ensures v <= from || v <= to
  {
    InterpolateBetween(from, to, progress);
    Interpolate(from, to, progress)
  }

  function Shade(f: Fade, to: nat, now: real): nat
  {
    if f.duration > 0.0 && !Done(f, now) then DoneIs(f, now); ShadeAt(f.from, to, Progress(f, now)) else to
  }

  // ---------------------------------------------------------------- the invariant of a run

  ghost predicate Valid(s: FadeState)
  {
    Disjoint(s.units) && FadesOk(s.fades) && s.fades.Keys <= s.units.Keys && FramesOk(s.frames) &&
    forall k :: k in s.units ==> k.universe in s.frames && (s.units[k].source.removed ==> s.units[k] == Removed(s.units[k]))
  }

  /** What the composition guarantees: writers are live and cover the slots they are filed under, in
      universes that have a buffer; and every universe the pattern drove is a started one. */
  ghost predicate TickOk(s: FadeState, t: Tick)
  {
    WritersOk(t.writers) && FramesOk(t.frames) && t.fadeTime >= 0.0 && s.frames.Keys <= t.started &&
    forall w :: w in t.writers ==> w.universe in t.frames && !t.writers[w].source.removed
  }

  /** A slot with a writer is no slot of a unit that stays without one. */
  lemma StaysClear(s: FadeState, t: Tick, k: UnitKey, l: UnitKey, slot: Slot)
    requires Whole(t.writers, k) && Stays(s, t, l) && Covers(k, slot)
    ensures !Covers(l, slot)
  {}

  lemma NextIsWholeOrStays(s: FadeState, t: Tick, k: UnitKey)
    requires WritersOk(t.writers)
    ensures k in NextUnits(s, t) <==> Whole(t.writers, k) || Stays(s, t, k)
    ensures Whole(t.writers, k) ==> NextUnits(s, t)[k] == t.writers[CoarseSlot(k)]
    ensures Stays(s, t, k) ==> NextUnits(s, t)[k] == Removed(s.units[k])
  {
    WholeUnitsAre(t.writers);
    hide WholeUnits, Removed;
  }

  lemma NextDisjoint(s: FadeState, t: Tick)
    requires Valid(s) && TickOk(s, t)
    ensures Disjoint(NextUnits(s, t))
    ensures forall k :: k in NextUnits(s, t) ==> k.universe in Base(t)
    ensures FramesOk(Base(t))
  {
    WholeUnitsAre(t.writers);
    WholeDisjoint(t.writers);
    var units, whole := NextUnits(s, t), WholeUnits(t.writers);
    hide WholeUnits, NextUnits, Covers, FadesOk, Blank;
    forall k | k in units ensures KeyOk(k) && units[k].key == k && k.universe in Base(t) {
      NextIsWholeOrStays(s, t, k);
    }
    forall k, l, x | k in units && l in units && Covers(k, x) && Covers(l, x) ensures k == l {
      NextIsWholeOrStays(s, t, k);
      NextIsWholeOrStays(s, t, l);
      hide Whole, Stays;
      if Whole(t.writers, k) && Stays(s, t, l) {
        StaysClear(s, t, k, l, x);
      } else if Whole(t.writers, l) && Stays(s, t, k) {
        StaysClear(s, t, l, k, x);
      } else {
        StaysKnown(s, t, k);
        StaysKnown(s, t, l);
      }
    }
    BaseOk(t);
  }

  lemma StaysKnown(s: FadeState, t: Tick, k: UnitKey)
    ensures Stays(s, t, k) ==> k in s.units
  {}

  lemma BaseOk(t: Tick)
    requires FramesOk(t.frames)
    ensures FramesOk(Base(t))
  {}

  /** next is the state after the tick. */
  ghost predicate Ticked(s: FadeState, t: Tick, next: FadeState)
    requires Valid(s) && TickOk(s, t)
  {
    NextDisjoint(s, t);
    next.units == NextUnits(s, t) && next.fades == NextFades(s, t) && Overlaid(next.frames, Base(t), FadeValues(s, t))
  }

  lemma ValuesApart(s: FadeState, t: Tick)
    requires Valid(s) && TickOk(s, t) && Disjoint(NextUnits(s, t))
    ensures KeysApart(FadeValues(s, t)) && FadeValues(s, t).Keys <= NextUnits(s, t).Keys
    ensures FadeValues(s, t).Keys == NextFades(s, t).Keys
    ensures FadesOk(NextFades(s, t))
    ensures forall k :: k in FadeValues(s, t) ==> FadeValues(s, t)[k] < if k.fine == 0 then 0x100 else 0x1_0000
  {
    hide NextUnits, Disjoint, Driven, ShadeAt, Progress, WithStarted;
    var units := NextUnits(s, t);
    Keyed(units);
  }

  lemma Keyed(units: Units)
    requires Disjoint(units)
    ensures forall k :: k in units ==> KeyOk(k)
    ensures forall k, l, s :: k in units && l in units && Covers(k, s) && Covers(l, s) ==> k == l
  {}

  // ---------------------------------------------------------------- what a tick does

  /** The units after a tick. */
  lemma UnitAfter(s: FadeState, t: Tick, next: FadeState, k: UnitKey)
    requires Valid(s) && TickOk(s, t) && Ticked(s, t, next)
    ensures k in next.units <==> Whole(t.writers, k) || Stays(s, t, k)
    ensures Whole(t.writers, k) ==> next.units[k] == t.writers[CoarseSlot(k)]
    ensures Stays(s, t, k) ==> next.units[k] == Removed(s.units[k])
  {
    NextDisjoint(s, t);
    NextIsWholeOrStays(s, t, k);
    hide NextUnits, Disjoint, Overlaid, Whole, Stays, Removed;
  }

  lemma RemovedAfter(s: FadeState, t: Tick, next: FadeState, k: UnitKey)
    requires Valid(s) && TickOk(s, t) && Ticked(s, t, next) && k in next.units && next.units[k].source.removed
    ensures next.units[k] == Removed(next.units[k])
  {
    UnitAfter(s, t, next, k);
    hide Ticked, Valid, WritersOk, FramesOk;
  }

  lemma FramesAfter(s: FadeState, t: Tick, next: FadeState)
    requires Valid(s) && TickOk(s, t) && Ticked(s, t, next)
    ensures Disjoint(next.units) && FadesOk(next.fades) && next.fades.Keys <= next.units.Keys && FramesOk(next.frames)
    ensures next.frames.Keys == t.frames.Keys + t.started
    ensures forall k :: k in next.units ==> k.universe in next.frames
  {
    NextDisjoint(s, t);
    ValuesApart(s, t);
    hide NextUnits, FadeValues, Disjoint, FadesOk, Running, FramesOk;
  }

  /** The invariant holds over every run. */
  lemma KeepsValid(s: FadeState, t: Tick, next: FadeState)
    requires Valid(s) && TickOk(s, t) && Ticked(s, t, next)
    ensures Valid(next) && next.frames.Keys == t.frames.Keys + t.started
  {
    FramesAfter(s, t, next);
    hide Ticked, TickOk, Disjoint, FadesOk, FramesOk, Removed;
    forall k | k in next.units && next.units[k].source.removed ensures next.units[k] == Removed(next.units[k]) {
      RemovedAfter(s, t, next, k);
    }
  }

  /** The fade of a unit after a tick. */
  lemma FadeAfter(s: FadeState, t: Tick, next: FadeState, k: UnitKey)
    requires Valid(s) && TickOk(s, t) && Ticked(s, t, next) && k in next.units
    ensures KeyOk(k) && (k in next.fades <==> Running(s, t, k, next.units[k]))
    ensures k in next.fades ==> next.fades[k] == FadeNow(s, t, k, next.units[k]).value
  {
    NextDisjoint(s, t);
    ValuesApart(s, t);
    Keyed(next.units);
    hide NextUnits, Disjoint, FadeValues, Running, FadeNow, Overlaid;
  }

  /** The order in which the units are looked at makes no difference. */
  lemma OneOutcome(s: FadeState, t: Tick, next: FadeState, next': FadeState)
    requires Valid(s) && TickOk(s, t) && Ticked(s, t, next) && Ticked(s, t, next')
    ensures next == next'
  {
    NextDisjoint(s, t);
    OverlayUnique(next.frames, next'.frames, Base(t), FadeValues(s, t));
  }

  /** Every unit shows its own fade, or what was composed for it. */
  lemma UnitShows(s: FadeState, t: Tick, next: FadeState, k: UnitKey)
    requires Valid(s) && TickOk(s, t) && Ticked(s, t, next) && k in next.units
    ensures KeyOk(k) && (k in next.fades ==> next.fades[k].duration > 0.0 && !Done(next.fades[k], t.now))
    ensures UnitValue(next.frames, k) ==
              if k in next.fades then Interpolate(next.fades[k].from, UnitValue(Base(t), k), Progress(next.fades[k], t.now))
              else UnitValue(Base(t), k)
  {
    NextDisjoint(s, t);
    ValuesApart(s, t);
    Keyed(next.units);
    var values := FadeValues(s, t);
    assert k in next.fades ==> values[k] == Shade(next.fades[k], UnitValue(Base(t), k), t.now);
    hide NextUnits, FadeValues, Disjoint, Shade, Base;
    OverlayShows(next.frames, Base(t), values, k);
  }

  /** A slot outside every fading unit shows the byte composed for it. */
  lemma OtherSlotsComposed(s: FadeState, t: Tick, next: FadeState, slot: Slot)
    requires Valid(s) && TickOk(s, t) && Ticked(s, t, next) && InFrames(Base(t), slot)
    requires forall k :: k in next.fades ==> !Covers(k, slot)
    ensures InFrames(next.frames, slot) && SlotValue(next.frames, slot) == SlotValue(Base(t), slot)
  {
    NextDisjoint(s, t);
    ValuesApart(s, t);
    hide NextUnits, FadeValues, Disjoint, Base;
    assert |next.frames[slot.universe]| == |Base(t)[slot.universe]|;
  }

  /** A fade never jumps: the tick on which a unit of an entry the pattern already drove changes what
      drives it shows what it showed before. */
  lemma NoJump(s: FadeState, t: Tick, next: FadeState, k: UnitKey)
    requires Valid(s) && TickOk(s, t) && Ticked(s, t, next) && k in next.units
    requires k !in s.units || s.units[k].source != next.units[k].source || s.units[k].fade != next.units[k].fade
    requires next.units[k].fade && t.fadeTime > 0.0
    ensures KeyOk(k) && k in next.fades
    ensures (exists l :: l in s.units && s.units[l].source.entry == next.units[k].source.entry) ==>
              UnitValue(next.frames, k) == UnitValue(s.frames, k) && next.fades[k] == Fade(UnitValue(s.frames, k), t.now, t.fadeTime)
    ensures !(exists l :: l in s.units && s.units[l].source.entry == next.units[k].source.entry) ==>
              UnitValue(next.frames, k) == UnitValue(t.initial, k) && next.fades[k] == Fade(UnitValue(t.initial, k), t.now, t.fadeTime)
  {
    hide Ticked, Valid, TickOk, Interpolate, Base, UnitValue;
    FadeAfter(s, t, next, k);
    UnitShows(s, t, next, k);
    var u := next.units[k];
    var f := Fade(StartValue(s, t, k, u), t.now, t.fadeTime);
    DoneIs(f, t.now);
    InterpolateBetween(f.from, UnitValue(Base(t), k), 0.0);
  }

  /** Where the fade time is 0, or what drives the unit now does not fade, a changed unit shows at once what
      is composed for it. */
  lemma ShowsAtOnce(s: FadeState, t: Tick, next: FadeState, k: UnitKey)
    requires Valid(s) && TickOk(s, t) && Ticked(s, t, next) && k in next.units
    requires k !in s.units || s.units[k].source != next.units[k].source || s.units[k].fade != next.units[k].fade
    requires !next.units[k].fade || t.fadeTime == 0.0
    ensures KeyOk(k) && k !in next.fades && UnitValue(next.frames, k) == UnitValue(Base(t), k)
  {
    hide Ticked, Valid, TickOk, Interpolate, Base, UnitValue;
    FadeAfter(s, t, next, k);
    UnitShows(s, t, next, k);
  }

  /** A fade never overshoots: a fading unit lies between its start and its present target. */
  lemma NoOvershoot(s: FadeState, t: Tick, next: FadeState, k: UnitKey)
    requires Valid(s) && TickOk(s, t) && Ticked(s, t, next) && k in next.units && k in next.fades
    ensures KeyOk(k)
    ensures var from, to := next.fades[k].from, UnitValue(Base(t), k);
            if from <= to then from <= UnitValue(next.frames, k) <= to else to <= UnitValue(next.frames, k) <= from
  {
    UnitShows(s, t, next, k);
    hide Ticked, Interpolate, Base;
    DoneIs(next.fades[k], t.now);
    InterpolateBetween(next.fades[k].from, UnitValue(Base(t), k), Progress(next.fades[k], t.now));
  }

  /** A fade left alone goes on, and is over once its time has passed. */
  lemma FadeGoesOn(s: FadeState, t: Tick, next: FadeState, k: UnitKey)
    requires Valid(s) && TickOk(s, t) && Ticked(s, t, next) && k in next.units
    requires k in s.units && s.units[k].source == next.units[k].source && s.units[k].fade == next.units[k].fade
    ensures k in next.fades <==> k in s.fades && !Done(s.fades[k], t.now)
    ensures k in next.fades ==> next.fades[k] == s.fades[k]
  {
    FadeAfter(s, t, next, k);
    assert k in s.fades ==> s.fades[k].duration > 0.0;
    hide Ticked, Valid, TickOk;
  }

  // ---------------------------------------------------------------- whole runs

  /** states[i + 1] is what tick i makes of states[i], and time does not run backwards. */
  ghost predicate IsRun(states: seq<FadeState>, ticks: seq<Tick>)
  {
    |states| == |ticks| + 1 && Valid(states[0]) &&
    (forall i :: 0 <= i < |ticks| ==> StepOk(states, ticks, i)) &&
    forall i, j :: 0 <= i < j < |ticks| ==> ticks[i].now <= ticks[j].now
  }

  ghost predicate StepOk(states: seq<FadeState>, ticks: seq<Tick>, i: nat)
    requires |states| == |ticks| + 1 && i < |ticks|
  {
    Valid(states[i]) ==> TickOk(states[i], ticks[i]) && Ticked(states[i], ticks[i], states[i + 1])
  }

  lemma {:induction false} RunKeepsValid(states: seq<FadeState>, ticks: seq<Tick>, i: nat)
    requires IsRun(states, ticks) && i <= |ticks|
    ensures Valid(states[i]) && (i < |ticks| ==> TickOk(states[i], ticks[i]) && Ticked(states[i], ticks[i], states[i + 1]))
  {
    hide Valid, TickOk, Ticked;
    if i > 0 {
      RunKeepsValid(states, ticks, i - 1);
      KeepsValid(states[i - 1], ticks[i - 1], states[i]);
    }
    if i < |ticks| {
      assert StepOk(states, ticks, i);
    }
  }

  /** Unit k is driven, or fading out, in the same way from state a to state b. */
  ghost predicate Steady(states: seq<FadeState>, k: UnitKey, a: nat, b: nat)
    requires a <= b < |states|
  {
    (forall i :: a <= i <= b ==> k in states[i].units) &&
    forall i :: a <= i < b ==> states[i].units[k].source == states[i + 1].units[k].source && states[i].units[k].fade == states[i + 1].units[k].fade
  }

  lemma {:induction false} FadeRuns(states: seq<FadeState>, ticks: seq<Tick>, k: UnitKey, a: nat, b: nat, f: Fade)
    requires IsRun(states, ticks) && 1 <= a <= b < |states| && Steady(states, k, a, b)
    requires k in states[a].fades && states[a].fades[k] == f && f.duration > 0.0
    ensures k in states[b].fades <==> b == a || !Done(f, ticks[b - 1].now)
    ensures k in states[b].fades ==> states[b].fades[k] == f
    decreases b
  {
    hide Valid, TickOk, Ticked;
    if b > a {
      FadeRuns(states, ticks, k, a, b - 1, f);
      RunKeepsValid(states, ticks, b - 1);
      FadeGoesOn(states[b - 1], ticks[b - 1], states[b], k);
    }
  }

  /** What a whole fade looks like. Unit k changes on tick a and is then left alone to tick b: on every
      tick in between it shows the mix of what it showed before tick a and what is composed now, in
      proportion to the time gone by, and what is composed once the fade time has passed. */
  lemma WholeFade(states: seq<FadeState>, ticks: seq<Tick>, k: UnitKey, a: nat, b: nat)
    requires IsRun(states, ticks) && a <= b < |ticks| && Steady(states, k, a + 1, b + 1)
    requires k !in states[a].units || states[a].units[k].source != states[a + 1].units[k].source || states[a].units[k].fade != states[a + 1].units[k].fade
    requires states[a + 1].units[k].fade && ticks[a].fadeTime > 0.0
    requires exists l :: l in states[a].units && states[a].units[l].source.entry == states[a + 1].units[k].source.entry
    ensures KeyOk(k)
    ensures var gone := (ticks[b].now - ticks[a].now) / ticks[a].fadeTime;
            UnitValue(states[b + 1].frames, k) ==
              if gone >= 1.0 then UnitValue(Base(ticks[b]), k)
              else Interpolate(UnitValue(states[a].frames, k), UnitValue(Base(ticks[b]), k), gone)
  {
    hide Valid, TickOk, Ticked, Base, Interpolate;
    RunKeepsValid(states, ticks, a);
    NoJump(states[a], ticks[a], states[a + 1], k);
    var f := states[a + 1].fades[k];
    FadeRuns(states, ticks, k, a + 1, b + 1, f);
    RunKeepsValid(states, ticks, b);
    UnitShows(states[b], ticks[b], states[b + 1], k);
    DoneIs(f, ticks[b].now);
  }

  /** The bytes of such a fade: at the unit's own slots, coarse before fine, stands the share of the way from
      what they held before tick a to what is composed now, to the nearest step. */
  lemma WholeFadeBytes(states: seq<FadeState>, ticks: seq<Tick>, k: UnitKey, a: nat, b: nat)
    requires IsRun(states, ticks) && a <= b < |ticks| && Steady(states, k, a + 1, b + 1)
    requires k !in states[a].units || states[a].units[k].source != states[a + 1].units[k].source || states[a].units[k].fade != states[a + 1].units[k].fade
    requires states[a + 1].units[k].fade && ticks[a].fadeTime > 0.0
    requires exists l :: l in states[a].units && states[a].units[l].source.entry == states[a + 1].units[k].source.entry
    requires k.universe in states[a].frames && k.universe in ticks[b].frames
    ensures KeyOk(k) && BuffersOk(states, ticks, k, a, b)
    ensures var gone := (ticks[b].now - ticks[a].now) / ticks[a].fadeTime;
            PartWay(BytesAt(states[a].frames[k.universe], k), BytesAt(ticks[b].frames[k.universe], k), gone,
                    BytesAt(states[b + 1].frames[k.universe], k))
  {
    hide Interpolate, Steady, Ticked, TickOk, Valid, PartWay;
    WholeFade(states, ticks, k, a, b);
    BuffersHere(states, ticks, k, a, b);
    BytesAre(states[a].frames, k);
    BytesAre(states[b + 1].frames, k);
    var gone := (ticks[b].now - ticks[a].now) / ticks[a].fadeTime;
    if a < b {
      assert ticks[a].now <= ticks[b].now;
    }
    GoneSoFar(ticks[a].now, ticks[b].now, ticks[a].fadeTime);
    WayShown(UnitValue(states[a].frames, k), UnitValue(Base(ticks[b]), k), gone);
  }

  /** shown is the share gone of the way, to the nearest step, and its end once all is gone. */
  ghost predicate PartWay(from: int, to: int, gone: real, shown: int)
  {
    if gone >= 1.0 then shown == to else -0.5 <= from as real + (to as real - from as real) * gone - shown as real <= 0.5
  }

  lemma WayShown(from: nat, to: nat, gone: real)
    requires gone >= 0.0
    ensures PartWay(from, to, gone, if gone >= 1.0 then to else Interpolate(from, to, gone))
  {
    InterpolateStraight(from, to, gone);
    hide Interpolate;
  }

  ghost predicate BuffersOk(states: seq<FadeState>, ticks: seq<Tick>, k: UnitKey, a: nat, b: nat)
    requires |states| == |ticks| + 1 && a <= b < |ticks|
  {
    k.universe in states[a].frames && k.universe in ticks[b].frames && k.universe in states[b + 1].frames &&
    FramesOk(states[a].frames) && FramesOk(ticks[b].frames) && FramesOk(states[b + 1].frames)
  }

  lemma BuffersHere(states: seq<FadeState>, ticks: seq<Tick>, k: UnitKey, a: nat, b: nat)
    requires IsRun(states, ticks) && a <= b < |ticks| && KeyOk(k)
    requires k.universe in states[a].frames && k.universe in ticks[b].frames
    ensures BuffersOk(states, ticks, k, a, b)
    ensures UnitValue(Base(ticks[b]), k) == BytesAt(ticks[b].frames[k.universe], k)
  {
    hide Ticked, Disjoint, FadesOk;
    RunKeepsValid(states, ticks, a);
    RunKeepsValid(states, ticks, b);
    FramesAfter(states[b], ticks[b], states[b + 1]);
    BaseOk(ticks[b]);
    BytesAre(Base(ticks[b]), k);
  }

  lemma GoneSoFar(start: real, now: real, time: real)
    requires start <= now && time > 0.0
    ensures (now - start) / time >= 0.0
  {}

  /** Nothing writes the slots of unit k. */
  predicate Free(t: Tick, k: UnitKey)
  {
    CoarseSlot(k) !in t.writers && (k.fine != 0 ==> FineSlot(k) !in t.writers)
  }

  lemma FreeStep(s: FadeState, t: Tick, next: FadeState, k: UnitKey)
    requires Valid(s) && TickOk(s, t) && Ticked(s, t, next) && Free(t, k)
    ensures k in next.units <==> k in s.units && (s.units[k].source.removed ==> k in s.fades)
    ensures k in next.units ==> next.units[k] == Removed(s.units[k])
    ensures k in next.units ==>
              (s.units[k].source == next.units[k].source <==> s.units[k].source.removed) && s.units[k].fade == next.units[k].fade
  {
    UnitAfter(s, t, next, k);
    assert k in s.units ==> (s.units[k].source.removed ==> s.units[k] == Removed(s.units[k]));
    hide Ticked, TickOk, Valid;
  }

  /** The fade a unit begins on tick a. */
  function FadeFrom(s: FadeState, t: Tick, k: UnitKey): Fade
    requires KeyOk(k)
  {
    Fade(UnitValue(s.frames, k), t.now, t.fadeTime)
  }

  /** Fading out. Unit k was driven before tick a and nothing writes its slots from then on: it stays,
      in one steady fade from what it showed, until the tick after the fade time has passed. */
  lemma {:induction false} FadesOut(states: seq<FadeState>, ticks: seq<Tick>, k: UnitKey, a: nat, b: nat)
    requires IsRun(states, ticks) && a <= b < |ticks| && (forall i :: a <= i <= b ==> Free(ticks[i], k))
    requires k in states[a].units && states[a].units[k].fade && !states[a].units[k].source.removed && ticks[a].fadeTime > 0.0
    ensures KeyOk(k) && (k in states[b + 1].units <==> b == a || !Done(FadeFrom(states[a], ticks[a], k), ticks[b - 1].now))
    ensures k in states[b + 1].units ==> Steady(states, k, a + 1, b + 1)
    ensures k in states[b + 1].units ==> states[b + 1].units[k] == Removed(states[a].units[k])
    ensures k in states[b + 1].units ==> (k in states[b + 1].fades <==> !Done(FadeFrom(states[a], ticks[a], k), ticks[b].now))
    decreases b
  {
    hide Valid, TickOk, Ticked, Done, Free, FadeFrom, StepOk;
    assert |states| == |ticks| + 1;
    hide IsRun;
    RunKeepsValid(states, ticks, a);
    RunKeepsValid(states, ticks, b);
    FreeStep(states[b], ticks[b], states[b + 1], k);
    FirstFadeOut(states[a], ticks[a], states[a + 1], k);
    var f := FadeFrom(states[a], ticks[a], k);
    if b > a {
      FadesOut(states, ticks, k, a, b - 1);
      LaterStill(states, ticks, f, a, b);
      if k in states[b + 1].units {
        FadeRuns(states, ticks, k, a + 1, b + 1, f);
      }
    }
  }

  lemma FirstFadeOut(s: FadeState, t: Tick, next: FadeState, k: UnitKey)
    requires Valid(s) && TickOk(s, t) && Ticked(s, t, next) && Free(t, k)
    requires k in s.units && s.units[k].fade && !s.units[k].source.removed && t.fadeTime > 0.0
    ensures KeyOk(k) && k in next.fades && next.fades[k] == FadeFrom(s, t, k) && FadeFrom(s, t, k).duration > 0.0
    ensures !Done(FadeFrom(s, t, k), t.now)
  {
    hide Valid, TickOk, Ticked, UnitValue;
    FreeStep(s, t, next, k);
    NoJump(s, t, next, k);
    assert Driven(s.units, s.units[k].source.entry);
  }

  lemma LaterStill(states: seq<FadeState>, ticks: seq<Tick>, f: Fade, a: nat, b: nat)
    requires IsRun(states, ticks) && a < b < |ticks| && f.duration > 0.0
    ensures b - 1 > a && Done(f, ticks[b - 2].now) ==> Done(f, ticks[b - 1].now)
    ensures Done(f, ticks[b - 1].now) ==> Done(f, ticks[b].now)
  {
    hide StepOk, Valid;
  }
}
