/** Fades of virtual dimmers and of colour fills: what a pattern test shows on keys that have no channel
    of their own, a level and a fill level each. A key no test drives any more goes back to what it shows
    untouched, and only then is let go. */
module VirtualFades {
  import opened Prelude
  import opened PatternSlots
  import opened PatternFade

  /** The engine key of a virtual dimmer, or of the colour fill of a scope. */
  datatype VirtualKey = DimmerKey(entry: string, offset: nat) | FillKey(entry: string, cell: string)

  /** What a test asks of a key. A fill has no level of its own. */
  datatype VirtualUnit = VirtualUnit(level: byte, source: Source, fill: bool, open: bool)

  datatype Shown = Shown(level: byte, fill: byte)

  datatype VirtualFade = VirtualFade(from: Shown, start: real, duration: real)

  datatype VirtualState = VirtualState(units: map<VirtualKey, VirtualUnit>, fades: map<VirtualKey, VirtualFade>, shown: map<VirtualKey, Shown>)

  /** One tick: what the tests drive, the fade time set, the time now. */
  datatype VirtualTick = VirtualTick(driven: map<VirtualKey, VirtualUnit>, fadeTime: real, now: real)

  function Untouched(k: VirtualKey): Shown
  {
    if k.FillKey? then Shown(255, 0) else Shown(0, 0)
  }

  function Target(k: VirtualKey, u: VirtualUnit): Shown
  {
    if u.source.removed then Untouched(k)
    else if u.open then Shown(255, 0)
    else Shown(u.level, u.level)
  }

  // ---------------------------------------------------------------- one tick

  function Orphan(u: VirtualUnit): VirtualUnit
  {
    VirtualUnit(255, Source(u.source.entry, "", 0.0, 0, true), u.fill, false)
  }

  /** A key no test drives stays unless it was without a driver already and has faded out. */
  predicate Kept(s: VirtualState, t: VirtualTick, k: VirtualKey)
  {
    k in s.units && k !in t.driven && (s.units[k].source.removed ==> k in s.fades)
  }

  function UnitsAfter(s: VirtualState, t: VirtualTick): map<VirtualKey, VirtualUnit>
  {
    t.driven + map k | k in s.units && Kept(s, t, k) :: Orphan(s.units[k])
  }

  /** A new level is not a change: only another source is, or another way of showing it. */
  predicate ChangedUnit(s: VirtualState, k: VirtualKey, u: VirtualUnit)
  {
    k !in s.units || s.units[k].source != u.source || s.units[k].fill != u.fill || s.units[k].open != u.open
  }

  function WasShown(s: VirtualState, k: VirtualKey): Shown
  {
    if k in s.shown then s.shown[k] else Untouched(k)
  }

  /** The fade key k has on this tick, over or not. */
  function FadeHere(s: VirtualState, t: VirtualTick, k: VirtualKey, u: VirtualUnit): Option<VirtualFade>
  {
    if ChangedUnit(s, k, u) then (if t.fadeTime > 0.0 then Some(VirtualFade(WasShown(s, k), t.now, t.fadeTime)) else None)
    else if k in s.fades then Some(s.fades[k])
    else None
  }

  /** The fade's progress has reached its end. */
  predicate FadeOver(f: VirtualFade, now: real)
    requires f.duration > 0.0
  {
    now - f.start >= f.duration
  }

  lemma OverIs(f: VirtualFade, now: real)
    requires f.duration > 0.0
    ensures FadeOver(f, now) <==> (now - f.start) / f.duration >= 1.0
  {
    Ratio(now - f.start, f.duration);
  }

  lemma Ratio(x: real, d: real)
    requires d > 0.0
    ensures x / d >= 1.0 <==> x >= d
  {}

  predicate StillFading(s: VirtualState, t: VirtualTick, k: VirtualKey, u: VirtualUnit)
  {
    var f := FadeHere(s, t, k, u);
    f.Some? && f.value.duration > 0.0 && !FadeOver(f.value, t.now)
  }

  function ByteBetween(from: byte, to: byte, progress: real): (r: byte)
    requires progress < 1.0
    ensures from <= to ==> from <= r <= to
    ensures to <= from ==> to <= r <= from
    ensures progress <= 0.0 ==> r == from
  {
    InterpolateBetween(from, to, progress);
    Interpolate(from, to, progress)
  }

  function ShownHere(s: VirtualState, t: VirtualTick, k: VirtualKey, u: VirtualUnit): Shown
  {
    if StillFading(s, t, k, u) then Blend(FadeHere(s, t, k, u).value, Target(k, u), t.now) else Target(k, u)
  }

  function Blend(f: VirtualFade, to: Shown, now: real): Shown
    requires f.duration > 0.0 && !FadeOver(f, now)
  {
    OverIs(f, now);
    var progress := (now - f.start) / f.duration;
    Shown(ByteBetween(f.from.level, to.level, progress), ByteBetween(f.from.fill, to.fill, progress))
  }

  function Step(s: VirtualState, t: VirtualTick): VirtualState
  {
    var units := UnitsAfter(s, t);
    VirtualState(units,
                 map k | k in units && StillFading(s, t, k, units[k]) :: FadeHere(s, t, k, units[k]).value,
                 map k | k in units :: ShownHere(s, t, k, units[k]))
  }

  // ---------------------------------------------------------------- what every run keeps

  /** Fades belong to units, and whatever is not fading shows its target. */
  ghost predicate Sound(s: VirtualState)
  {
    s.shown.Keys == s.units.Keys && s.fades.Keys <= s.units.Keys &&
    (forall k :: k in s.fades ==> s.fades[k].duration > 0.0) &&
    forall k :: k in s.units && k !in s.fades ==> s.shown[k] == Target(k, s.units[k])
  }

  lemma StepKeepsSound(s: VirtualState, t: VirtualTick)
    requires Sound(s)
    ensures Sound(Step(s, t))
  {
    hide Target, ChangedUnit, Kept, Blend, FadeHere, FadeOver, UnitsAfter;
  }

  function Runs(s: VirtualState, ticks: seq<VirtualTick>): VirtualState
  {
    if ticks == [] then s else Step(Runs(s, ticks[..|ticks| - 1]), ticks[|ticks| - 1])
  }

  lemma {:induction false} RunsKeepSound(s: VirtualState, ticks: seq<VirtualTick>)
    requires Sound(s)
    ensures Sound(Runs(s, ticks))
  {
    hide Sound, Step;
    if ticks != [] {
      RunsKeepSound(s, ticks[..|ticks| - 1]);
      StepKeepsSound(Runs(s, ticks[..|ticks| - 1]), ticks[|ticks| - 1]);
    }
  }

  /** Letting a key go changes nothing: whatever ran before, it showed what it shows untouched. */
  lemma ReleaseUnseen(ticks: seq<VirtualTick>, t: VirtualTick, k: VirtualKey)
    requires var s := Runs(VirtualState(map[], map[], map[]), ticks); k in s.shown && k !in Step(s, t).shown
    ensures Runs(VirtualState(map[], map[], map[]), ticks).shown[k] == Untouched(k)
  {
    RunsKeepSound(VirtualState(map[], map[], map[]), ticks);
    hide Runs, Untouched, ShownHere;
  }

  /** What a test drives differently: a key of another source, or shown in another way. */
  predicate DrivenAnew(s: VirtualState, t: VirtualTick, k: VirtualKey)
  {
    k in t.driven &&
    (k !in s.units || s.units[k].source != t.driven[k].source || s.units[k].fill != t.driven[k].fill || s.units[k].open != t.driven[k].open)
  }

  /** A key driven anew first shows what it showed; one nothing drove shows a colour fill at full without
      filling, a virtual dimmer dark. Without a fade time it shows at once what the test asks. */
  lemma NoVirtualJump(s: VirtualState, t: VirtualTick, k: VirtualKey)
    requires Sound(s) && DrivenAnew(s, t, k) && t.fadeTime >= 0.0
    ensures k in Step(s, t).shown
    ensures var was := if k in s.shown then s.shown[k] else if k.FillKey? then Shown(255, 0) else Shown(0, 0);
            t.fadeTime > 0.0 ==> Step(s, t).shown[k] == was && k in Step(s, t).fades && Step(s, t).fades[k] == VirtualFade(was, t.now, t.fadeTime)
    ensures t.fadeTime == 0.0 ==> k !in Step(s, t).fades
  {
    hide Target;
    var u := t.driven[k];
    assert UnitsAfter(s, t)[k] == u && ChangedUnit(s, k, u);
    if t.fadeTime > 0.0 {
      var f := FadeHere(s, t, k, u).value;
      assert (t.now - f.start) / f.duration == 0.0;
    }
  }

  /** A key driven as before, whatever its level, goes on with its fade until the time is over. */
  lemma VirtualGoesOn(s: VirtualState, t: VirtualTick, k: VirtualKey)
    requires Sound(s) && k in t.driven && !DrivenAnew(s, t, k)
    ensures k in Step(s, t).fades <==> k in s.fades && t.now - s.fades[k].start < s.fades[k].duration
    ensures k in Step(s, t).fades ==> Step(s, t).fades[k] == s.fades[k]
  {
    assert UnitsAfter(s, t)[k] == t.driven[k];
    hide Target, ShownHere;
  }

  /** to is where key k goes on tick t: what its test asks, level and fill alike, or open over a dark fill;
      without a test, a colour fill to full without filling and a virtual dimmer to dark. */
  predicate GoesTo(t: VirtualTick, k: VirtualKey, to: Shown)
  {
    if k !in t.driven then to == if k.FillKey? then Shown(255, 0) else Shown(0, 0)
    else !t.driven[k].source.removed && to.level == (if t.driven[k].open then 255 else t.driven[k].level) &&
         to.fill == if t.driven[k].open then 0 else t.driven[k].level
  }

  /** On every tick a key shows the share of its fade that has gone by, level and fill alike, to the nearest
      step, or where it goes. */
  lemma VirtualWay(s: VirtualState, t: VirtualTick, k: VirtualKey, to: Shown)
    requires Sound(s) && k in Step(s, t).units && GoesTo(t, k, to)
    ensures k in Step(s, t).shown
    ensures if k in Step(s, t).fades then OnWay(Step(s, t).fades[k], to, t.now, Step(s, t).shown[k]) else Step(s, t).shown[k] == to
  {
    hide UnitsAfter, Target, Sound, FadeHere, FadeOver, Blend, OnWay, GoesTo;
    var u := UnitsAfter(s, t)[k];
    GoalIs(s, t, k, to);
    if StillFading(s, t, k, u) {
      BlendWay(FadeHere(s, t, k, u).value, to, t.now);
    }
  }

  lemma GoalIs(s: VirtualState, t: VirtualTick, k: VirtualKey, to: Shown)
    requires k in UnitsAfter(s, t) && GoesTo(t, k, to)
    ensures Target(k, UnitsAfter(s, t)[k]) == to
  {}

  /** shown is as far from f's start towards to as its time has gone by. */
  ghost predicate OnWay(f: VirtualFade, to: Shown, now: real, shown: Shown)
  {
    f.duration > 0.0 && now - f.start < f.duration &&
    (now >= f.start ==>
       PartWay(f.from.level, to.level, (now - f.start) / f.duration, shown.level) &&
       PartWay(f.from.fill, to.fill, (now - f.start) / f.duration, shown.fill))
  }

  lemma BlendWay(f: VirtualFade, to: Shown, now: real)
    requires f.duration > 0.0 && !FadeOver(f, now)
    ensures OnWay(f, to, now, Blend(f, to, now))
  {
    if now < f.start {
      return;
    }
    hide PartWay;
    OverIs(f, now);
    GoneSoFar(f.start, now, f.duration);
    WayShown(f.from.level, to.level, (now - f.start) / f.duration);
    WayShown(f.from.fill, to.fill, (now - f.start) / f.duration);
  }

  ghost predicate ByteWithin(x: byte, from: byte, to: byte)
  {
    from <= x <= to || to <= x <= from
  }

  /** A fade stays between where it started and where the key is going, and is there when its time is over. */
  lemma NoVirtualOvershoot(s: VirtualState, t: VirtualTick, k: VirtualKey)
    requires k in UnitsAfter(s, t)
    ensures var u := UnitsAfter(s, t)[k];
            var f, to, now := FadeHere(s, t, k, u), Target(k, u), Step(s, t).shown[k];
            if f.Some? && f.value.duration > 0.0 && t.now - f.value.start < f.value.duration then
              Within(now, f.value.from, to) && k in Step(s, t).fades && Step(s, t).fades[k] == f.value
            else now == to && k !in Step(s, t).fades
  {
    var u := UnitsAfter(s, t)[k];
    var f := FadeHere(s, t, k, u);
    if f.Some? && f.value.duration > 0.0 && t.now - f.value.start < f.value.duration {
      BlendWithin(f.value, Target(k, u), t.now);
    }
    hide UnitsAfter, FadeHere, Target, Blend, Within;
  }

  ghost predicate Within(now: Shown, from: Shown, to: Shown)
  {
    ByteWithin(now.level, from.level, to.level) && ByteWithin(now.fill, from.fill, to.fill)
  }

  lemma BlendWithin(f: VirtualFade, to: Shown, now: real)
    requires f.duration > 0.0 && !FadeOver(f, now)
    ensures Within(Blend(f, to, now), f.from, to)
  {}

  // ---------------------------------------------------------------- a key losing its driver

  ghost predicate Undriven(ticks: seq<VirtualTick>, k: VirtualKey)
  {
    forall i :: 0 <= i < |ticks| ==> k !in ticks[i].driven
  }

  /** After a first tick t without a driver and n more, k is fading to untouched from what it showed before
      t, began at t and is not over; or it shows what it shows untouched and is about to go; or is gone. */
  ghost predicate Leaving(before: VirtualState, t: VirtualTick, now: real, s: VirtualState, k: VirtualKey)
    requires k in before.units && k in before.shown
  {
    (k in s.units ==> s.units[k] == Orphan(before.units[k])) &&
    if t.fadeTime > 0.0 && now - t.now < t.fadeTime then
      k in s.units && k in s.fades && s.fades[k] == VirtualFade(before.shown[k], t.now, t.fadeTime)
    else k !in s.fades && WasShown(s, k) == Untouched(k)
  }

  lemma FirstUndriven(s: VirtualState, t: VirtualTick, k: VirtualKey)
    requires Sound(s) && k in s.units && !s.units[k].source.removed && k !in t.driven
    ensures Leaving(s, t, t.now, Step(s, t), k)
  {
    NoVirtualOvershoot(s, t, k);
    hide Target, Untouched, Sound, ShownHere, StillFading;
    TargetOfOrphan(k, s.units[k]);
  }

  lemma TargetOfOrphan(k: VirtualKey, u: VirtualUnit)
    ensures Target(k, Orphan(u)) == Untouched(k)
  {}

  lemma NextUndriven(before: VirtualState, t: VirtualTick, s: VirtualState, was: real, next: VirtualTick, k: VirtualKey)
    requires Sound(s) && k in before.units && k in before.shown && Leaving(before, t, was, s, k) && k !in next.driven && was <= next.now
    ensures Leaving(before, t, next.now, Step(s, next), k)
  {
    if k in UnitsAfter(s, next) {
      NoVirtualOvershoot(s, next, k);
    }
    hide Target, Untouched, ShownHere, StillFading;
    TargetOfOrphan(k, before.units[k]);
  }

  ghost predicate InTime(ticks: seq<VirtualTick>)
  {
    forall i, j :: 0 <= i < j < |ticks| ==> ticks[i].now <= ticks[j].now
  }

  /** Whatever else the tests do meanwhile, a key that loses its driver fades from what it showed to untouched
      over the fade time set when it lost it, and is let go on the tick after that time is over. */
  lemma {:induction false} VirtualFadesOut(s: VirtualState, ticks: seq<VirtualTick>, k: VirtualKey)
    requires Sound(s) && k in s.units && !s.units[k].source.removed && ticks != [] && Undriven(ticks, k) && InTime(ticks)
    ensures Leaving(s, ticks[0], ticks[|ticks| - 1].now, Runs(s, ticks), k)
    ensures |ticks| >= 2 && ticks[|ticks| - 2].now - ticks[0].now >= ticks[0].fadeTime ==> k !in Runs(s, ticks).units
  {
    hide Sound, Step, Leaving;
    var n := |ticks| - 1;
    RunsKeepSound(s, ticks[..n]);
    if n == 0 {
      assert ticks[..n] == [];
      FirstUndriven(s, ticks[0], k);
    } else {
      VirtualFadesOut(s, ticks[..n], k);
      ShownHas(s, k);
      NextUndriven(s, ticks[0], Runs(s, ticks[..n]), ticks[n - 1].now, ticks[n], k);
      if ticks[n - 1].now - ticks[0].now >= ticks[0].fadeTime {
        LetGo(s, ticks[0], ticks[n - 1].now, Runs(s, ticks[..n]), ticks[n], k);
      }
    }
  }

  lemma LetGo(before: VirtualState, t: VirtualTick, was: real, s: VirtualState, next: VirtualTick, k: VirtualKey)
    requires k in before.units && k in before.shown && Leaving(before, t, was, s, k)
    requires was - t.now >= t.fadeTime && k !in next.driven
    ensures k !in Step(s, next).units
  {}

  lemma ShownHas(s: VirtualState, k: VirtualKey)
    requires Sound(s) && k in s.units
    ensures k in s.shown
  {}

  // ---------------------------------------------------------------- the tick as it is carried out

  class VirtualFader {
    var units: map<VirtualKey, VirtualUnit>
    var fades: map<VirtualKey, VirtualFade>
    var shown: map<VirtualKey, Shown>

    function State(): VirtualState
      reads this
    {
      VirtualState(units, fades, shown)
    }

    constructor ()
      ensures State() == VirtualState(map[], map[], map[])
    {
      units, fades, shown := map[], map[], map[];
    }

    static method Carry(s: VirtualState, t: VirtualTick) returns (units: map<VirtualKey, VirtualUnit>)
      ensures units == UnitsAfter(s, t)
    {
      units := t.driven;
      var rest := s.units.Keys;
      while rest != {}
        invariant rest <= s.units.Keys
        invariant forall k :: k in units <==> k in t.driven || (k in s.units && k !in rest && Kept(s, t, k))
        invariant forall k :: k in units ==> units[k] == if k in t.driven then t.driven[k] else Orphan(s.units[k])
      {
        var k :| k in rest;
        rest := rest - {k};
        if k in t.driven || (s.units[k].source.removed && k !in s.fades) {
          continue;
        }
        units := units[k := Orphan(s.units[k])];
      }
    }

    /** One key's turn. */
    static method FadeKey(s: VirtualState, t: VirtualTick, k: VirtualKey, u: VirtualUnit, fades0: map<VirtualKey, VirtualFade>)
      returns (fades: map<VirtualKey, VirtualFade>, now: Shown)
      requires Sound(s) && (k in fades0 <==> k in s.fades) && (k in fades0 ==> fades0[k] == s.fades[k])
      ensures now == ShownHere(s, t, k, u)
      ensures fades == if StillFading(s, t, k, u) then fades0[k := FadeHere(s, t, k, u).value] else fades0 - {k}
    {
      hide Target, Untouched;
      fades, now := fades0, Target(k, u);
      if k !in s.units || s.units[k].source != u.source || s.units[k].fill != u.fill || s.units[k].open != u.open {
        fades := fades - {k};
        if t.fadeTime > 0.0 {
          var from := if k in s.shown then s.shown[k] else Untouched(k);
          fades := fades[k := VirtualFade(from, t.now, t.fadeTime)];
        }
      }
      if k in fades {
        var f := fades[k];
        OverIs(f, t.now);
        if (t.now - f.start) / f.duration >= 1.0 {
          fades := fades - {k};
        } else {
          now := Blend(f, now, t.now);
        }
      }
    }

    /** The keys are taken in whatever order the map gives them. */
    static method FadeKeys(s: VirtualState, t: VirtualTick, now: map<VirtualKey, VirtualUnit>)
      returns (running: map<VirtualKey, VirtualFade>, levels: map<VirtualKey, Shown>)
      requires Sound(s)
      ensures levels == map k | k in now :: ShownHere(s, t, k, now[k])
      ensures forall k :: k in running <==> if k in now then StillFading(s, t, k, now[k]) else k in s.fades
      ensures forall k :: k in running && k in now ==> Some(running[k]) == FadeHere(s, t, k, now[k])
    {
      running, levels := s.fades, map[];
      var rest := now.Keys;
      while rest != {}
        invariant rest <= now.Keys
        invariant forall k :: k in levels <==> k in now && k !in rest
        invariant forall k :: k in levels ==> levels[k] == ShownHere(s, t, k, now[k])
        invariant forall k :: k in running <==> if k in now && k !in rest then StillFading(s, t, k, now[k]) else k in s.fades
        invariant forall k :: k in running ==> running[k] == if k in now && k !in rest then FadeHere(s, t, k, now[k]).value else s.fades[k]
      {
        hide Sound, ShownHere, StillFading, FadeHere;
        var k :| k in rest;
        rest := rest - {k};
        var level: Shown;
        running, level := FadeKey(s, t, k, now[k], running);
        levels := levels[k := level];
      }
    }

    /** One tick. */
    method FadeVirtual(t: VirtualTick)
      requires Sound(State())
      modifies this
      ensures Sound(State()) && State() == Step(old(State()), t)
    {
      var s := State();
      var now := Carry(s, t);
      var running, levels := FadeKeys(s, t, now);
      hide ShownHere, StillFading, FadeHere, Sound;
      running := Dropped(running, now);
      assert running == Step(s, t).fades;
      units, fades, shown := now, running, levels;
      StepKeepsSound(s, t);
    }

    static function Dropped(fades: map<VirtualKey, VirtualFade>, units: map<VirtualKey, VirtualUnit>): map<VirtualKey, VirtualFade>
    {
      map k | k in fades && k in units :: fades[k]
    }
  }
}
