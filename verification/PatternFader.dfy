/** The rig check's fade state and the tick that updates it: units and fades are looked at in whatever
    order the maps give them, and frame bytes are overwritten in place. */
module PatternFader {
  import opened Prelude
  import opened PatternSlots
  import opened PatternFrames
  import opened PatternFade

  class RigCheck {
    var units: Units
    var fades: Fades
    var frames: Frames
    var started: set<uint16>
    var fadeTime: real

    function State(): FadeState
      reads this
    {
      FadeState(units, fades, frames)
    }

    ghost predicate Ready()
      reads this
    {
      Valid(State()) && 0.0 <= fadeTime <= MAX_PATTERN_FADE && frames.Keys <= started
    }

    constructor ()
      ensures Ready() && State() == FadeState(map[], map[], map[]) && started == {} && fadeTime == 0.0
    {
      units, fades, frames, started, fadeTime := map[], map[], map[], {}, 0.0;
    }

    /** Sets the time of the fades that begin from now on. */
    method SetPatternFade(d: real) returns (ok: bool)
      requires Ready()
      modifies this`fadeTime
      ensures Ready() && (ok <==> 0.0 <= d <= MAX_PATTERN_FADE) && fadeTime == if ok then d else old(fadeTime)
    {
      ok := !(d < 0.0 || d > MAX_PATTERN_FADE);
      if ok {
        fadeTime := d;
      }
    }

    /** Universes are started before a scope that needs them is composed. */
    method StartUniverse(u: uint16)
      requires Ready()
      modifies this`started
      ensures Ready() && started == old(started) + {u} && State() == old(State())
    {
      started := started + {u};
    }

    /** Stopping the output forgets what was showing; the fade time stays. */
    method Cancel()
      requires Ready()
      modifies this`units, this`fades, this`frames
      ensures Ready() && State() == FadeState(map[], map[], map[])
    {
      units, fades, frames := map[], map[], map[];
    }

    static method AddBuffers(composed: Frames, started: set<uint16>) returns (frames: Frames)
      ensures frames == WithStarted(composed, started)
    {
      frames := composed;
      var rest := started;
      while rest != {}
        invariant rest <= started
        invariant frames.Keys == composed.Keys + (started - rest)
        invariant forall u :: u in frames ==> frames[u] == if u in composed then composed[u] else Blank()
      {
        hide Blank;
        var u :| u in rest;
        rest := rest - {u};
        if u !in frames {
          frames := frames[u := Blank()];
        }
      }
      hide Blank;
    }

    /** Keeps the units that lost their writer while a fade of theirs is to finish, or to begin. */
    static method CarryUnits(s: FadeState, writers: Writers, now: Units, ghost t: Tick) returns (units: Units)
      requires t.writers == writers && WritersOk(writers) && now == WholeUnits(writers)
      ensures units == NextUnits(s, t)
    {
      hide WholeUnits, Whole, Stays, Removed, WritersOk, CoarseSlot, FineSlot, NextUnits;
      units := now;
      var rest := s.units.Keys;
      while rest != {}
        invariant rest <= s.units.Keys
        invariant forall k :: k in units <==> k in now || (k in s.units && k !in rest && Stays(s, t, k))
        invariant forall k :: k in units ==> units[k] == if k in now then now[k] else Removed(s.units[k])
      {
        var k :| k in rest;
        rest := rest - {k};
        var was := s.units[k];
        StaysWhen(s, t, k);
        if k in units {
          continue;
        }
        if CoarseSlot(k) in writers {
          continue;
        }
        if k.fine != 0 {
          if FineSlot(k) in writers {
            continue;
          }
        }
        if was.source.removed && k !in s.fades {
          continue;
        }
        units := units[k := Removed(was)];
      }
      CarriedAll(s, t, units);
    }

    static method Entries(units: Units) returns (entries: set<string>)
      ensures forall e :: e in entries <==> Driven(units, e)
    {
      entries := {};
      var rest := units.Keys;
      while rest != {}
        invariant rest <= units.Keys
        invariant forall e :: e in entries <==> exists k :: k in units && k !in rest && units[k].source.entry == e
      {
        var k :| k in rest;
        rest := rest - {k};
        entries := entries + {units[k].source.entry};
      }
    }

    /** One unit's turn: a changed unit begins a fade, a running fade writes its value over the frames. */
    static method FadeOne(s: FadeState, t: Tick, k: UnitKey, u: Unit, entries: set<string>, fades0: Fades, frames0: Frames)
      returns (fades: Fades, frames: Frames)
      requires KeyOk(k) && (k in s.fades ==> s.fades[k].duration > 0.0) && k.universe in frames0 && FramesOk(frames0)
      requires (k in fades0 <==> k in s.fades) && (k in fades0 ==> fades0[k] == s.fades[k])
      requires forall e :: e in entries <==> Driven(s.units, e)
      ensures fades == if Running(s, t, k, u) then fades0[k := FadeNow(s, t, k, u).value] else fades0 - {k}
      ensures frames == if Running(s, t, k, u) then SetUnitValue(frames0, k, Shade(FadeNow(s, t, k, u).value, UnitValue(frames0, k), t.now))
                        else frames0
    {
      hide UnitValue, SetUnitValue, Driven, Mix, Round;
      fades, frames := fades0, frames0;
      if k !in s.units || s.units[k].source != u.source || s.units[k].fade != u.fade {
        fades := fades - {k};
        if u.fade && t.fadeTime > 0.0 {
          var from := UnitValue(s.frames, k);
          if u.source.entry !in entries {
            from := UnitValue(t.initial, k);
          }
          fades := fades[k := Fade(from, t.now, t.fadeTime)];
        }
      }
      if k in fades {
        var f := fades[k];
        var progress := (t.now - f.start) / f.duration;
        DoneIs(f, t.now);
        if progress >= 1.0 {
          fades := fades - {k};
        } else {
          progress := if progress < 0.0 then 0.0 else progress;
          var to := UnitValue(frames, k);
          InterpolateBetween(f.from, to, progress);
          var value := Round(Mix(f.from as real, to as real, progress));
          frames := SetUnitValue(frames, k, value);
        }
      }
    }

    static method FadeUnits(s: FadeState, t: Tick, units: Units, entries: set<string>, composed: Frames)
      returns (fades: Fades, frames: Frames)
      requires Valid(s) && TickOk(s, t) && units == NextUnits(s, t) && composed == Base(t)
      requires forall e :: e in entries <==> Driven(s.units, e)
      ensures Disjoint(NextUnits(s, t)) && FadedUpTo(s, t, fades, {})
      ensures Overlaid(frames, Base(t), FadeValues(s, t))
    {
      StartFading(s, t);
      hide *;
      fades, frames := s.fades, composed;
      var rest := units.Keys;
      while rest != {}
        invariant rest <= units.Keys
        invariant FadedUpTo(s, t, fades, rest)
        invariant Overlaid(frames, Base(t), Picked(FadeValues(s, t), units.Keys - rest))
      {
        var k :| k in rest;
        BeforeTurn(s, t, fades, frames, rest, k);
        ghost var fadesBefore, framesBefore := fades, frames;
        fades, frames := FadeOne(s, t, k, units[k], entries, fades, frames);
        AfterTurn(s, t, fadesBefore, fades, framesBefore, frames, rest, k);
        rest := rest - {k};
      }
      AllPicked(s, t);
    }

    /** Fades of units that are gone go with them. */
    static method DropFades(fades0: Fades, units: Units) returns (fades: Fades)
      ensures fades == map k | k in fades0 && k in units :: fades0[k]
    {
      fades := fades0;
      var rest := fades0.Keys;
      while rest != {}
        invariant rest <= fades0.Keys
        invariant forall k :: k in fades <==> k in fades0 && (k in rest || k in units)
        invariant forall k :: k in fades ==> fades[k] == fades0[k]
      {
        var k :| k in rest;
        rest := rest - {k};
        if k !in units {
          fades := fades - {k};
        }
      }
    }

    static method FadedState(s: FadeState, t: Tick, comp: Composition) returns (next: FadeState)
      requires Valid(s) && TickOk(s, t) && comp.writers == t.writers
      ensures Ticked(s, t, next) && Valid(next) && next.frames.Keys == t.frames.Keys + t.started
    {
      hide *;
      WritersFine(s, t);
      var whole := comp.CollectUnits();
      var base := AddBuffers(t.frames, t.started);
      var units := CarryUnits(s, comp.writers, whole, t);
      var entries := Entries(s.units);
      BaseIs(t);
      var faded, shown := FadeUnits(s, t, units, entries, base);
      var fades := DropFades(faded, units);
      next := FadeState(units, fades, shown);
      TickedTo(s, t, units, fades, shown);
      KeepsValid(s, t, next);
    }

    /** One tick of the pattern: the composed frames, with the fades written over them, become what is
        showing. */
    method FadePattern(comp: Composition, composed: Frames, initial: Frames, now: real)
      requires Ready()
      requires TickOk(State(), Tick(comp.writers, composed, initial, started, fadeTime, now)) && composed.Keys <= started
      modifies this`units, this`fades, this`frames
      ensures Ready() && Ticked(old(State()), Tick(comp.writers, composed, initial, started, fadeTime, now), State())
    {
      hide Valid, TickOk, Ticked;
      var t := Tick(comp.writers, composed, initial, started, fadeTime, now);
      var next := FadedState(State(), t, comp);
      units, fades, frames := next.units, next.fades, next.frames;
      assert State() == next;
    }
  }

  // ---------------------------------------------------------------- the loop over the units

  function Picked(values: map<UnitKey, nat>, done: set<UnitKey>): map<UnitKey, nat>
  {
    map k | k in values && k in done :: values[k]
  }

  /** The units outside rest have had their turn, the others' fades are as they were. */
  ghost predicate FadedUpTo(s: FadeState, t: Tick, fades: Fades, rest: set<UnitKey>)
    requires FadesOk(s.fades) && Disjoint(NextUnits(s, t))
  {
    var done := NextFades(s, t);
    forall k ::
      if k in NextUnits(s, t) && k !in rest
      then (k in fades <==> k in done) && (k in fades ==> fades[k] == done[k])
      else (k in fades <==> k in s.fades) && (k in fades ==> fades[k] == s.fades[k])
  }

  lemma WritersFine(s: FadeState, t: Tick)
    requires TickOk(s, t)
    ensures WritersOk(t.writers)
  {}

  lemma BaseIs(t: Tick)
    ensures Base(t) == WithStarted(t.frames, t.started)
  {}

  lemma TickedTo(s: FadeState, t: Tick, units: Units, fades: Fades, frames: Frames)
    requires Valid(s) && TickOk(s, t) && units == NextUnits(s, t) && Disjoint(units)
    requires exists before :: FadedUpTo(s, t, before, {}) && fades == map k | k in before && k in units :: before[k]
    requires Overlaid(frames, Base(t), FadeValues(s, t))
    ensures Ticked(s, t, FadeState(units, fades, frames))
  {
    hide NextUnits, Disjoint, Running, FadeNow;
    var before :| FadedUpTo(s, t, before, {}) && fades == map k | k in before && k in units :: before[k];
    assert fades == NextFades(s, t);
  }

  lemma NoTurnYet(s: FadeState, t: Tick)
    requires FadesOk(s.fades) && Disjoint(NextUnits(s, t))
    ensures FadedUpTo(s, t, s.fades, NextUnits(s, t).Keys)
  {
    hide NextUnits, Disjoint, FadesOk, NextFades;
  }

  lemma StartFading(s: FadeState, t: Tick)
    requires Valid(s) && TickOk(s, t)
    ensures Disjoint(NextUnits(s, t)) && FadesOk(s.fades) && FadedUpTo(s, t, s.fades, NextUnits(s, t).Keys)
    ensures Overlaid(Base(t), Base(t), Picked(FadeValues(s, t), {}))
    ensures NextUnits(s, t).Keys - NextUnits(s, t).Keys == {}
  {
    NextDisjoint(s, t);
    assert FadesOk(s.fades);
    hide *;
    NoTurnYet(s, t);
  }

  lemma BeforeTurn(s: FadeState, t: Tick, fades: Fades, frames: Frames, rest: set<UnitKey>, k: UnitKey)
    requires Valid(s) && TickOk(s, t) && Disjoint(NextUnits(s, t)) && FadedUpTo(s, t, fades, rest)
    requires k in rest && rest <= NextUnits(s, t).Keys
    requires Overlaid(frames, Base(t), Picked(FadeValues(s, t), NextUnits(s, t).Keys - rest))
    ensures KeyOk(k) && (k in s.fades ==> s.fades[k].duration > 0.0) && k.universe in frames && FramesOk(frames)
    ensures (k in fades <==> k in s.fades) && (k in fades ==> fades[k] == s.fades[k])
  {
    NextDisjoint(s, t);
    Keyed(NextUnits(s, t));
    hide NextUnits, Disjoint, Base, FadeValues, NextFades;
  }

  lemma AfterTurn(s: FadeState, t: Tick, fades: Fades, fades': Fades, before: Frames, frames: Frames, rest: set<UnitKey>, k: UnitKey)
    requires Valid(s) && TickOk(s, t) && Disjoint(NextUnits(s, t)) && FadedUpTo(s, t, fades, rest)
    requires k in rest && rest <= NextUnits(s, t).Keys && KeyOk(k) && (k in s.fades ==> s.fades[k].duration > 0.0)
    requires k.universe in before && FramesOk(before)
    requires Overlaid(before, Base(t), Picked(FadeValues(s, t), NextUnits(s, t).Keys - rest))
    requires var u := NextUnits(s, t)[k];
             fades' == (if Running(s, t, k, u) then fades[k := FadeNow(s, t, k, u).value] else fades - {k}) &&
             frames == if Running(s, t, k, u) then SetUnitValue(before, k, Shade(FadeNow(s, t, k, u).value, UnitValue(before, k), t.now)) else before
    ensures FadedUpTo(s, t, fades', rest - {k})
    ensures Overlaid(frames, Base(t), Picked(FadeValues(s, t), NextUnits(s, t).Keys - (rest - {k})))
  {
    NextDisjoint(s, t);
    ValuesApart(s, t);
    TurnFades(s, t, fades, fades', rest, k);
    hide NextUnits, Disjoint, Base, FadeValues, NextFades, Running, FadeNow, FadedUpTo, SetUnitValue, Shade;
    var values, done := FadeValues(s, t), NextUnits(s, t).Keys - rest;
    TurnFrames(before, Base(t), values, done, k);
    assert NextUnits(s, t).Keys - (rest - {k}) == done + {k};
  }

  lemma TurnFades(s: FadeState, t: Tick, fades: Fades, fades': Fades, rest: set<UnitKey>, k: UnitKey)
    requires Valid(s) && TickOk(s, t) && Disjoint(NextUnits(s, t)) && FadedUpTo(s, t, fades, rest)
    requires k in rest && rest <= NextUnits(s, t).Keys && KeyOk(k) && (k in s.fades ==> s.fades[k].duration > 0.0)
    requires var u := NextUnits(s, t)[k];
             fades' == if Running(s, t, k, u) then fades[k := FadeNow(s, t, k, u).value] else fades - {k}
    ensures FadedUpTo(s, t, fades', rest - {k})
  {
    hide NextUnits, Disjoint, Running, FadeNow;
  }

  /** The frames written so far still show what was composed for a unit whose turn has not come: the
      units share no slot. */
  lemma TurnFrames(frames: Frames, base: Frames, values: map<UnitKey, nat>, done: set<UnitKey>, k: UnitKey)
    requires Overlaid(frames, base, Picked(values, done)) && KeysApart(values) && k !in done && KeyOk(k) && k.universe in base
    ensures k in values ==> UnitValue(frames, k) == UnitValue(base, k) && FramesOk(frames) && k.universe in frames &&
                            Overlaid(SetUnitValue(frames, k, values[k]), base, Picked(values, done + {k}))
    ensures k !in values ==> Overlaid(frames, base, Picked(values, done + {k}))
  {
    var before, after := Picked(values, done), Picked(values, done + {k});
    if k in values {
      assert after == before[k := values[k]];
      assert KeysApart(after);
      assert FramesOk(frames) && k.universe in frames;
      assert forall l, s :: l in before && Covers(l, s) ==> !Covers(k, s);
      hide Covers, Overlaid, Picked, UnitValue, KeysApart, SetUnitValue;
      OverlayShows(frames, base, before, k);
      OverlayOneMore(frames, base, before, k, values[k]);
    } else {
      assert after == before;
    }
  }

  lemma AllPicked(s: FadeState, t: Tick)
    requires Valid(s) && TickOk(s, t) && Disjoint(NextUnits(s, t))
    ensures Picked(FadeValues(s, t), NextUnits(s, t).Keys - {}) == FadeValues(s, t)
  {
    ValuesApart(s, t);
    hide NextUnits, Disjoint, FadeValues;
  }

  lemma StaysWhen(s: FadeState, t: Tick, k: UnitKey)
    requires WritersOk(t.writers)
    ensures Stays(s, t, k) <==>
              k in s.units && k !in WholeUnits(t.writers) && CoarseSlot(k) !in t.writers && (k.fine != 0 ==> FineSlot(k) !in t.writers) &&
              (s.units[k].source.removed ==> k in s.fades)
  {
    WholeUnitsAre(t.writers);
    hide WholeUnits, Whole, WritersOk;
  }

  lemma CarriedAll(s: FadeState, t: Tick, units: Units)
    requires WritersOk(t.writers)
    requires forall k :: k in units <==> k in WholeUnits(t.writers) || (k in s.units && Stays(s, t, k))
    requires forall k :: k in units ==> units[k] == if k in WholeUnits(t.writers) then WholeUnits(t.writers)[k] else Removed(s.units[k])
    ensures units == NextUnits(s, t)
  {
    hide WholeUnits, WritersOk, Removed, Stays;
    var next := NextUnits(s, t);
    forall k ensures k in next <==> k in units {
      StaysWhen(s, t, k);
    }
    forall k | k in units ensures next[k] == units[k] {
      StaysWhen(s, t, k);
    }
  }
}
