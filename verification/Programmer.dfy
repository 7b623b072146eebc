/** The programmer itself: one object shared by every browser, each call under its lock. Every method is
    the step of ProgrammerSteps or ProgrammerRuns that carries its name. */
module Programmer {
  import opened Prelude
  import opened ChannelMap
  import opened ParameterModel
  import opened Faders
  import opened ChannelValues
  import opened ProgrammerModel
  import opened Staging
  import opened FanShapes
  import opened ProgrammerSteps
  import opened ProgrammerRuns

  class Programmer {
    var order: seq<string>
    var profiles: Profiles
    var selection: seq<Target>
    var values: Values
    var revision: nat
    var highlight: bool
    var lowlight: bool
    var stepping: bool
    var step: int
    var lowPct: int
    var shown: seq<string>
    var token: Option<string>

    function State(): ProgState
      reads this
    {
      ProgState(order, profiles, selection, values, revision, highlight, lowlight, stepping, step, lowPct, shown, token)
    }

    constructor (seed: nat)
      ensures Valid(State()) && revision == seed && selection == [] && values == map[] && !highlight
    {
      order, profiles, selection, values, revision := [], map[], [], map[], seed;
      highlight, lowlight, stepping, step, lowPct, shown, token := false, false, false, 0, 10, [], None;
    }

    method Check(expected: Option<nat>) returns (err: Option<ProgError>)
      ensures err == if IsStale(State(), expected) then Some(ProgError.Stale) else None
    {
      if expected.Some? && expected.value != revision {
        return Some(ProgError.Stale);
      }
      return None;
    }

    // -------------------------------------------------------------- sync

    static method LoadProfiles(entries: seq<(string, Profile)>) returns (profiles: Profiles, order: seq<string>)
      ensures profiles == FirstProfiles(entries) && order == FirstOrder(entries)
    {
      profiles, order := map[], [];
      for i := 0 to |entries|
        invariant profiles == FirstProfiles(entries[..i]) && order == FirstOrder(entries[..i])
      {
        FirstAre(entries[..i]);
        assert entries[..i + 1][..i] == entries[..i];
        var (id, prof) := entries[i];
        if id in profiles {
          continue;
        }
        profiles := profiles[id := prof];
        order := order + [id];
      }
      assert entries[..|entries|] == entries;
    }

    static method KeepTargets(profiles: Profiles, ts: seq<Target>) returns (kept: seq<Target>)
      ensures kept == KeptTargets(profiles, ts)
    {
      kept := [];
      for i := 0 to |ts|
        invariant kept == KeptTargets(profiles, ts[..i])
      {
        hide HasCell;
        assert ts[..i + 1][..i] == ts[..i];
        var t := ts[i];
        if t.entry in profiles && (t.cell == "" || HasCell(profiles[t.entry].model, t.cell)) {
          kept := kept + [t];
        }
      }
      assert ts[..|ts|] == ts;
    }

    static method KeepValues(was: Profiles, now: Profiles, values: Values) returns (kept: Values)
      ensures kept == KeptValues(was, now, values)
    {
      kept := values;
      var rest := values.Keys;
      while rest != {}
        invariant rest <= values.Keys
        invariant forall k :: k in kept <==> k in values && (k in rest || k in KeptValues(was, now, values))
        invariant forall k :: k in kept ==> kept[k] == values[k]
      {
        var k :| k in rest;
        rest := rest - {k};
        if k.entry !in now || k.entry !in was || now[k.entry].fingerprint != was[k.entry].fingerprint {
          kept := kept - {k};
        }
      }
    }

    /** Rebuilds what the patch decides. clear is a show switch; otherwise the selection and the values
        follow what is still there. */
    method Sync(newToken: string, entries: seq<(string, Profile)>, clear: bool) returns (changed: bool)
      requires Valid(State()) && DigestsTell(profiles, entries)
      requires forall i :: 0 <= i < |entries| ==> |entries[i].1.details| == |entries[i].1.model.parameters|
      modifies this
      ensures (State(), changed) == SyncStep(old(State()), newToken, entries, clear) && Valid(State())
    {
      SyncValid(State(), newToken, entries, clear);
      hide Valid, Synced, Differs, DigestsTell;
      if !clear && token == Some(newToken) {
        return false;
      }
      changed := Follow(newToken, entries, clear);
      if changed {
        revision := revision + 1;
      }
    }

    method Follow(newToken: string, entries: seq<(string, Profile)>, clear: bool) returns (changed: bool)
      modifies this
      ensures State() == Synced(old(State()), newToken, entries, clear) && changed == Differs(old(State()), State())
    {
      hide FirstProfiles, FirstOrder, KeptTargets, KeptValues, ShownOf, Synced, Differs;
      var models, ids := LoadProfiles(entries);
      FirstAre(entries);
      var kept, vals := Outlive(models, clear);
      var digest := ShownOf(ids, models);
      changed := (clear && highlight) || digest != shown || |kept| != |selection| || |vals| != |values|;
      ghost var s := State();
      Keep(kept, vals, clear);
      Load(models, ids, digest, newToken);
      SyncedIs(s, State(), newToken, entries, clear, kept, vals);
    }

    method Keep(kept: seq<Target>, vals: Values, clear: bool)
      modifies this`selection, this`values, this`highlight, this`stepping
      ensures selection == kept && values == vals && highlight == (old(highlight) && !clear)
      ensures stepping == (old(stepping) && !clear && |kept| == |old(selection)|)
    {
      if clear || |kept| != |selection| {
        stepping := false;
      }
      highlight := highlight && !clear;
      selection, values := kept, vals;
    }

    method Load(models: Profiles, ids: seq<string>, digest: seq<string>, newToken: string)
      modifies this`profiles, this`order, this`shown, this`token
      ensures profiles == models && order == ids && shown == digest && token == Some(newToken)
    {
      profiles, order, shown, token := models, ids, digest, Some(newToken);
    }

    /** The selection and the values that outlive a change to models; a show switch leaves none. */
    method Outlive(models: Profiles, clear: bool) returns (kept: seq<Target>, vals: Values)
      ensures kept == if clear then [] else KeptTargets(models, selection)
      ensures vals == if clear then map[] else KeptValues(profiles, models, values)
    {
      hide KeptTargets, KeptValues;
      if clear {
        return [], map[];
      }
      kept := KeepTargets(models, selection);
      vals := KeepValues(profiles, models, values);
    }

    // -------------------------------------------------------------- selection

    static method PickStep(sel: seq<Target>, action: SelectAction, t: Target) returns (next: seq<Target>)
      requires !action.SelectAll? && !action.SelectNone? && !action.SelectOther?
      ensures next == PickOne(sel, action, t)
    {
      next := sel;
      var i := IndexOf(next, t);
      hide IndexOf, PickOne;
      PickCases(sel, action, t);
      if i < 0 {
        if !action.SelectRemove? {
          next := next + [t];
        }
      } else if action.SelectRemove? || action.SelectToggle? {
        next := next[..i] + next[i + 1..];
      }
    }

    static lemma PickCases(sel: seq<Target>, action: SelectAction, t: Target)
      requires !action.SelectAll? && !action.SelectNone? && !action.SelectOther?
      ensures var i := IndexOf(sel, t);
              PickOne(sel, action, t) ==
                if i < 0 then (if action.SelectRemove? then sel else sel + [t])
                else if action.SelectRemove? || action.SelectToggle? then sel[..i] + sel[i + 1..] else sel
    {
      hide IndexOf;
    }

    static method Pick(start: seq<Target>, action: SelectAction, ts: seq<Target>) returns (next: seq<Target>)
      requires !action.SelectAll? && !action.SelectNone? && !action.SelectOther?
      ensures next == Picked(start, action, ts)
    {
      next := start;
      for n := 0 to |ts|
        invariant next == Picked(start, action, ts[..n])
      {
        hide PickOne;
        assert ts[..n + 1][..n] == ts[..n];
        next := PickStep(next, action, ts[n]);
      }
      assert ts[..|ts|] == ts;
    }

    method Select(action: SelectAction, targets: seq<Target>, expected: Option<nat>) returns (err: Option<ProgError>)
      requires Valid(State())
      modifies this`selection, this`stepping, this`revision
      ensures (State(), err) == SelectStep(old(State()), action, targets, expected) && Valid(State())
    {
      SelectValid(State(), action, targets, expected);
      hide Valid, Picked;
      err := Check(expected);
      if err.Some? {
        return;
      }
      var bad := FirstBad(profiles, targets);
      if bad.Some? {
        return bad;
      }
      if (action.SelectAll? || action.SelectNone?) && |targets| > 0 {
        return Some(BadRequest);
      }
      var next: seq<Target> := [];
      match action {
        case SelectAll => next := Wholes(order);
        case SelectNone =>
        case SelectOther => return Some(BadRequest);
        case SelectSet => next := Pick([], action, targets);
        case _ => next := Pick(selection, action, targets);
      }
      selection, stepping := next, false;
      revision := revision + 1;
    }

    // -------------------------------------------------------------- values by attribute

    /** Stages the channels of match i after those of done. */
    static method StageMatch(profiles: Profiles, values: Values, mt: Match, i: nat, ask: Ask, named: bool, before: Staged, ghost done: seq<Place>)
      returns (staged: Staged)
      requires ProfilesOk(profiles) && mt.target.entry in profiles
      requires forall b :: 0 <= b < |mt.params| ==> mt.params[b] < |profiles[mt.target.entry].model.parameters|
      requires AllPlaceOk(profiles, done) && before == PlaceAll(profiles, values, done, named)
      ensures var now := done + MatchPlaces(profiles, mt, i, ask, |mt.params|);
              AllPlaceOk(profiles, now) && staged == PlaceAll(profiles, values, now, named)
    {
      hide PlaceOne, PlaceAll, PlaceOk;
      staged := before;
      ghost var now := done;
      for b := 0 to |mt.params|
        invariant now == done + MatchPlaces(profiles, mt, i, ask, b)
        invariant AllPlaceOk(profiles, now) && staged == PlaceAll(profiles, values, now, named)
      {
        var j := mt.params[b];
        var pl := Place(mt.target.entry, j, ask(i, profiles[mt.target.entry].model.parameters[j], profiles[mt.target.entry].details[j]));
        PlaceIsOk(profiles, pl);
        PlaceMore(profiles, values, now, pl, named);
        staged := PlaceLocked(profiles, values, staged, pl, named);
        now := now + [pl];
      }
    }

    static method Stage(profiles: Profiles, values: Values, matches: seq<Match>, ask: Ask, named: bool) returns (staged: Staged)
      requires MatchesOk(profiles, matches)
      ensures AllPlaceOk(profiles, PlacesOf(profiles, matches, ask, |matches|))
      ensures staged == PlaceAll(profiles, values, PlacesOf(profiles, matches, ask, |matches|), named)
    {
      staged := NOTHING_STAGED;
      for i := 0 to |matches|
        invariant AllPlaceOk(profiles, PlacesOf(profiles, matches, ask, i))
        invariant staged == PlaceAll(profiles, values, PlacesOf(profiles, matches, ask, i), named)
      {
        hide PlaceAll, AllPlaceOk, MatchPlaces;
        staged := StageMatch(profiles, values, matches[i], i, ask, named, staged, PlacesOf(profiles, matches, ask, i));
      }
    }

    method Commit(staged: Staged) returns (err: Option<ProgError>)
      modifies this`values, this`revision
      ensures (State(), err) == CommitStep(old(State()), staged)
    {
      hide AppliedCommand;
      if |staged.applied| == 0 {
        return Some(NothingApplied);
      }
      for i := 0 to |staged.applied|
        invariant forall j :: 0 <= j < i ==> !AppliedCommand(profiles, staged.applied[j])
        invariant State() == old(State())
      {
        if AppliedCommand(profiles, staged.applied[i]) {
          return Some(CommandRefused);
        }
      }
      values := values + staged.pending;
      revision := revision + 1;
      return None;
    }

    method Set(r: Request, targets: Option<seq<Target>>, expected: Option<nat>) returns (err: Option<ProgError>)
      requires Valid(State())
      modifies this`values, this`revision
      ensures (State(), err) == SetStep(old(State()), r, targets, expected) && Valid(State())
    {
      SetValid(State(), r, targets, expected);
      hide Valid, RequestOk, CommitStep, MatchTargets, PlaceAll, MatchesOk, PlaceOk, PlacesOf;
      ghost var s := State();
      err := Check(expected);
      if err.Some? {
        return;
      }
      if !RequestOk(r) {
        return Some(BadRequest);
      }
      var matched := MatchSelection(profiles, if targets.Some? then targets.value else selection, r.attribute);
      if matched.Err? {
        return Some(matched.error);
      }
      MatchStepOk(s, targets, r.attribute);
      var staged := Stage(profiles, values, matched.value.matches, SetAsk(r), NamesFunction(r));
      err := Commit(staged);
    }

    method Fan(from: Request, to: Request, shape: Option<Shape>, targets: Option<seq<Target>>, expected: Option<nat>) returns (err: Option<ProgError>)
      requires Valid(State())
      modifies this`values, this`revision
      ensures (State(), err) == FanStep(old(State()), from, to, shape, targets, expected) && Valid(State())
    {
      FanValid(State(), from, to, shape, targets, expected);
      hide Valid, RequestOk, CommitStep, MatchTargets, PlaceAll, MatchesOk, PlaceOk, PlacesOf, FanAsk;
      ghost var s := State();
      err := Check(expected);
      if err.Some? {
        return;
      }
      if !RequestOk(from) || !RequestOk(to) || shape.None? {
        return Some(BadRequest);
      }
      var matched := MatchSelection(profiles, if targets.Some? then targets.value else selection, from.attribute);
      if matched.Err? {
        return Some(matched.error);
      }
      var matches := matched.value.matches;
      if |matches| < Needed(shape.value) {
        return Some(TooFew);
      }
      MatchStepOk(s, targets, from.attribute);
      var staged := Stage(profiles, values, matches, FanAsk(from, to, shape.value, |matches|), NamesFunction(from));
      err := Commit(staged);
    }

    // -------------------------------------------------------------- locate, presets

    static method LocateTarget(prof: Profile, t: Target, rule: Rule, sofar: Values) returns (pending: Values)
      requires |prof.model.parameters| == |prof.details|
      ensures pending == RuleParams(prof, t, rule, sofar, |prof.details|)
    {
      pending := sofar;
      for i := 0 to |prof.model.parameters|
        invariant pending == RuleParams(prof, t, rule, sofar, i)
      {
        var p := prof.model.parameters[i];
        var k := Key(t.entry, p.offset);
        if t.cell != "" && p.cell != t.cell {
          continue;
        }
        if k in pending {
          continue;
        }
        var v := rule(p, prof.details[i]);
        if v.Some? {
          pending := pending[k := v.value];
        }
      }
    }

    static method LocateTargets(profiles: Profiles, ts: seq<Target>, rule: Rule) returns (r: Result<Values, ProgError>)
      requires ProfilesOk(profiles)
      ensures r == RuleTargets(profiles, ts, rule)
    {
      var pending: Values := map[];
      for i := 0 to |ts|
        invariant RuleTargets(profiles, ts[..i], rule) == Ok(pending)
      {
        hide RuleParams;
        assert ts[..i + 1][..i] == ts[..i];
        if ts[i].entry !in profiles {
          RuleErrStays(profiles, ts, rule, i + 1);
          return Err(NoSuchFixture);
        }
        pending := LocateTarget(profiles[ts[i].entry], ts[i], rule, pending);
      }
      assert ts[..|ts|] == ts;
      return Ok(pending);
    }

    method Locate(rule: Rule, targets: Option<seq<Target>>, expected: Option<nat>) returns (err: Option<ProgError>)
      requires Valid(State())
      modifies this`values, this`revision
      ensures (State(), err) == LocateStep(old(State()), rule, targets, expected) && Valid(State())
    {
      LocateValid(State(), rule, targets, expected);
      hide Valid, RuleTargets, HoldStep;
      err := Check(expected);
      if err.Some? {
        return;
      }
      var ts := if targets.Some? then targets.value else selection;
      if |ts| == 0 {
        return Some(NothingSelected);
      }
      var found := LocateTargets(profiles, ts, rule);
      if found.Err? {
        return Some(found.error);
      }
      err := Hold(found.value);
    }

    method Hold(pending: Values) returns (err: Option<ProgError>)
      modifies this`values, this`revision
      ensures (State(), err) == HoldStep(old(State()), pending)
    {
      if pending == map[] {
        return Some(NothingApplied);
      }
      values := values + pending;
      revision := revision + 1;
      return None;
    }

    static method RecallTarget(prof: Profile, t: Target, family: Group, vs: seq<PresetValue>, sofar: Values) returns (pending: Values)
      requires |prof.model.parameters| == |prof.details|
      ensures pending == RecallParams(prof, t, family, vs, sofar, |prof.details|)
    {
      pending := sofar;
      for i := 0 to |prof.model.parameters|
        invariant pending == RecallParams(prof, t, family, vs, sofar, i)
      {
        hide Recalled;
        var p := prof.model.parameters[i];
        if prof.details[i].group != family || (t.cell != "" && p.cell != t.cell) {
          continue;
        }
        var v := Recalled(vs, t.entry, prof, p);
        if v.Some? {
          pending := pending[Key(t.entry, p.offset) := v.value];
        }
      }
    }

    method RecallPreset(family: Group, vs: seq<PresetValue>, expected: Option<nat>) returns (err: Option<ProgError>)
      requires Valid(State())
      modifies this`values, this`revision
      ensures (State(), err) == RecallStep(old(State()), family, vs, expected) && Valid(State())
    {
      RecallValid(State(), family, vs, expected);
      hide Valid, RecallTargets, HoldStep;
      err := Check(expected);
      if err.Some? {
        return;
      }
      if |selection| == 0 {
        return Some(NothingSelected);
      }
      var pending := MatchPreset(profiles, selection, family, vs);
      err := Hold(pending);
    }

    static method MatchPreset(profiles: Profiles, ts: seq<Target>, family: Group, vs: seq<PresetValue>) returns (pending: Values)
      requires ProfilesOk(profiles)
      ensures pending == RecallTargets(profiles, ts, family, vs)
    {
      hide RecallParams;
      pending := map[];
      for i := 0 to |ts|
        invariant pending == RecallTargets(profiles, ts[..i], family, vs)
      {
        assert ts[..i + 1][..i] == ts[..i];
        if ts[i].entry in profiles {
          pending := RecallTarget(profiles[ts[i].entry], ts[i], family, vs, pending);
        }
      }
      assert ts[..|ts|] == ts;
    }

    // -------------------------------------------------------------- raw, clear, highlight

    method Raw(entry: string, writes: seq<RawWrite>, expected: Option<nat>) returns (err: Option<ProgError>)
      requires Valid(State())
      modifies this`values, this`revision
      ensures (State(), err) == RawStep(old(State()), entry, writes, expected) && Valid(State())
    {
      RawValid(State(), entry, writes, expected);
      hide Valid, RawRefused;
      err := Check(expected);
      if err.Some? {
        return;
      }
      if entry !in profiles {
        return Some(NoSuchFixture);
      }
      if |writes| == 0 {
        return Some(BadRequest);
      }
      var m := profiles[entry].model;
      var refused := FirstRefused(m, writes);
      if refused.Some? {
        return refused;
      }
      NoneRefused(m, writes);
      hide RawStep;
      WriteRaw(entry, writes);
      revision := revision + 1;
    }

    method WriteRaw(entry: string, writes: seq<RawWrite>)
      requires forall i :: 0 <= i < |writes| && writes[i].value.Some? ==> 0 <= writes[i].value.value <= 255
      modifies this`values
      ensures values == RawWritten(old(values), entry, writes)
    {
      for i := 0 to |writes|
        invariant values == RawWritten(old(values), entry, writes[..i])
      {
        assert writes[..i + 1][..i] == writes[..i];
        var w := writes[i];
        if w.value.None? {
          values := values - {Key(entry, w.offset)};
        } else {
          values := values[Key(entry, w.offset) := w.value.value];
        }
      }
      assert writes[..|writes|] == writes;
    }

    /** Returns how many values were released. */
    method Clear(scope: ClearScope, group: GroupArg, expected: Option<nat>) returns (err: Option<ProgError>, n: nat)
      requires Valid(State())
      modifies this`values, this`selection, this`stepping, this`revision
      ensures (State(), err) == ClearStep(old(State()), scope, group, expected) && Valid(State())
      ensures n == |old(values).Keys - values.Keys|
    {
      ClearValid(State(), scope, group, expected);
      hide Valid, Releases;
      n := 0;
      err := Check(expected);
      if err.Some? {
        return;
      }
      if group.UnknownGroup? || scope.ClearOther? {
        return Some(BadRequest), 0;
      }
      values, n := Release(State(), scope, group);
      if scope.ClearAll? && group.AnyGroup? {
        selection, stepping := [], false;
      }
      revision := revision + 1;
    }

    static method Release(s: ProgState, scope: ClearScope, group: GroupArg) returns (values: Values, n: nat)
      ensures values == Cleared(s, scope, group) && n == |s.values.Keys - values.Keys|
    {
      hide Releases;
      n, values := 0, s.values;
      var rest := s.values.Keys;
      while rest != {}
        invariant rest <= s.values.Keys && n == |s.values.Keys - values.Keys|
        invariant forall k :: k in values <==> k in s.values && (k in rest || !Releases(s, scope, group, k))
        invariant forall k :: k in values ==> values[k] == s.values[k]
      {
        var k :| k in rest;
        rest := rest - {k};
        if Releases(s, scope, group, k) {
          ghost var gone := s.values.Keys - values.Keys;
          values := values - {k};
          n := n + 1;
          assert s.values.Keys - values.Keys == gone + {k};
        }
      }
    }

    static method Advance(kind: StepKind, stepping0: bool, step0: int, last: int) returns (stepping: bool, step: int)
      ensures (stepping, step) == Advanced(kind, stepping0, step0, last)
    {
      stepping, step := stepping0, step0;
      if kind.StepAll? {
        stepping := false;
      } else if kind.StepNext? {
        if !stepping {
          stepping, step := true, 0;
        } else if step < last {
          step := step + 1;
        }
      } else if kind.StepPrevious? {
        if !stepping {
          stepping, step := true, last;
        } else if step > 0 {
          step := step - 1;
        }
      }
    }

    method CheckHighlight(on: Option<bool>, low: Option<bool>, percent: Option<int>, kind: StepKind) returns (err: Option<ProgError>)
      ensures err == HighlightRefused(State(), on, low, percent, kind)
    {
      if on.None? && low.None? && percent.None? && kind.NoStep? {
        return Some(BadRequest);
      }
      if percent.Some? && (percent.value < 0 || percent.value > 100) {
        return Some(BadRequest);
      }
      if kind.StepOther? {
        return Some(BadRequest);
      }
      if kind.StepNext? || kind.StepPrevious? {
        if !(if on.Some? then on.value else highlight) {
          return Some(BadRequest);
        }
        if |selection| == 0 {
          return Some(NothingSelected);
        }
      }
      return None;
    }

    method SetHighlight(on: Option<bool>, low: Option<bool>, percent: Option<int>, kind: StepKind, expected: Option<nat>) returns (err: Option<ProgError>)
      requires Valid(State())
      modifies this`highlight, this`lowlight, this`stepping, this`step, this`lowPct, this`revision
      ensures (State(), err) == HighlightStep(old(State()), on, low, percent, kind, expected) && Valid(State())
    {
      HighlightValid(State(), on, low, percent, kind, expected);
      hide Valid, HighlightRefused, Highlighted;
      err := Check(expected);
      if err.Some? {
        return;
      }
      err := CheckHighlight(on, low, percent, kind);
      if err.Some? {
        return;
      }
      ghost var s := State();
      Light(on, low, percent, kind);
      revision := revision + 1;
    }

    method Light(on: Option<bool>, low: Option<bool>, percent: Option<int>, kind: StepKind)
      modifies this`highlight, this`lowlight, this`stepping, this`step, this`lowPct
      ensures Overlay() == OverlayOf(Highlighted(old(State()), on, low, percent, kind))
    {
      OverlayAfter(State(), on, low, percent, kind);
      hide Highlighted;
      if on.Some? {
        highlight := on.value;
        if !highlight {
          stepping := false;
        }
      }
      stepping, step := Advance(kind, stepping, step, |selection| - 1);
      if low.Some? {
        lowlight := low.value;
      }
      if percent.Some? {
        lowPct := percent.value;
      }
    }

    function Overlay(): (bool, bool, bool, int, int)
      reads this
    {
      (highlight, lowlight, stepping, step, lowPct)
    }
  }

  function OverlayOf(s: ProgState): (bool, bool, bool, int, int)
  {
    (s.highlight, s.lowlight, s.stepping, s.step, s.lowPct)
  }

  lemma OverlayAfter(s: ProgState, on: Option<bool>, low: Option<bool>, percent: Option<int>, kind: StepKind)
    ensures var lit := if on.Some? then on.value else s.highlight;
            var (walking, at) := Advanced(kind, s.stepping && (on.Some? ==> lit), s.step, |s.selection| - 1);
            OverlayOf(Highlighted(s, on, low, percent, kind)) ==
              (lit, if low.Some? then low.value else s.lowlight, walking, at, if percent.Some? then percent.value else s.lowPct)
  {}

  lemma SyncedIs(s: ProgState, next: ProgState, token: string, entries: seq<(string, Profile)>, clear: bool, kept: seq<Target>, vals: Values)
    requires next.profiles == FirstProfiles(entries) && next.order == FirstOrder(entries) && forall e :: e in next.order ==> e in next.profiles
    requires kept == if clear then [] else KeptTargets(next.profiles, s.selection)
    requires vals == if clear then map[] else KeptValues(s.profiles, next.profiles, s.values)
    requires next.selection == kept && next.values == vals && next.shown == ShownOf(next.order, next.profiles) && next.token == Some(token)
    requires next.highlight == (s.highlight && !clear) && next.stepping == (s.stepping && !clear && |kept| == |s.selection|)
    requires next.revision == s.revision && next.lowlight == s.lowlight && next.step == s.step && next.lowPct == s.lowPct
    ensures next == Synced(s, token, entries, clear)
    ensures Differs(s, next) <==> (clear && s.highlight) || next.shown != s.shown || |kept| != |s.selection| || |vals| != |s.values|
  {
    hide FirstProfiles, FirstOrder, KeptTargets, KeptValues, ShownOf;
  }

  lemma {:induction false} RuleErrStays(profiles: Profiles, ts: seq<Target>, rule: Rule, n: nat)
    requires ProfilesOk(profiles) && n <= |ts| && RuleTargets(profiles, ts[..n], rule).Err?
    ensures RuleTargets(profiles, ts, rule) == RuleTargets(profiles, ts[..n], rule)
    decreases |ts| - n
  {
    hide RuleParams;
    if n < |ts| {
      assert ts[..n + 1][..n] == ts[..n];
      RuleErrStays(profiles, ts, rule, n + 1);
    } else {
      assert ts[..n] == ts;
    }
  }

  ghost predicate AllPlaceOk(profiles: Profiles, places: seq<Place>)
  {
    forall j :: 0 <= j < |places| ==> PlaceOk(profiles, places[j])
  }

  lemma PlaceIsOk(profiles: Profiles, pl: Place)
    requires ProfilesOk(profiles) && pl.entry in profiles && pl.channel < |profiles[pl.entry].model.parameters|
    ensures PlaceOk(profiles, pl)
  {}

  lemma PlaceMore(profiles: Profiles, values: Values, places: seq<Place>, pl: Place, named: bool)
    requires PlaceOk(profiles, pl) && AllPlaceOk(profiles, places)
    ensures AllPlaceOk(profiles, places + [pl])
    ensures PlaceAll(profiles, values, places + [pl], named) == PlaceOne(profiles, values, PlaceAll(profiles, values, places, named), pl, named)
  {
    hide PlaceOne, PlaceOk;
    assert (places + [pl])[..|places|] == places;
  }

}
