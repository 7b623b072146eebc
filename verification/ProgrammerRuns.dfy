/** The remaining operations of the programmer, and what every run of all of them keeps. */
module ProgrammerRuns {
  import opened Prelude
  import opened ChannelMap
  import opened ParameterModel
  import opened Faders
  import opened ChannelValues
  import opened ProgrammerModel
  import opened Staging
  import opened FanShapes
  import opened ProgrammerSteps

  // ---------------------------------------------------------------- raw values

  /** A raw value for an offset, or none to release it. */
  datatype RawWrite = RawWrite(offset: uint16, value: Option<int>)

  predicate CoveredByParam(m: Model, offset: uint16)
  {
    exists i :: 0 <= i < |m.parameters| && (m.parameters[i].offset == offset || offset in m.parameters[i].offsets)
  }

  function RawRefused(m: Model, w: RawWrite): Option<ProgError>
  {
    if w.offset !in m.rawOffsets then Some(if CoveredByParam(m, w.offset) then CoveredOffset else OutsideFootprint)
    else if w.value.Some? && (w.value.value < 0 || w.value.value > 255) then Some(BadValue)
    else None
  }

  function FirstRefused(m: Model, ws: seq<RawWrite>): Option<ProgError>
  {
    if ws == [] then None else if RawRefused(m, ws[0]).Some? then RawRefused(m, ws[0]) else FirstRefused(m, ws[1..])
  }

  function RawWritten(values: Values, entry: string, ws: seq<RawWrite>): Values
    requires forall i :: 0 <= i < |ws| && ws[i].value.Some? ==> 0 <= ws[i].value.value <= 255
  {
    if ws == [] then values
    else
      var before := RawWritten(values, entry, ws[..|ws| - 1]);
      var w := ws[|ws| - 1];
      if w.value.None? then before - {Key(entry, w.offset)} else before[Key(entry, w.offset) := w.value.value]
  }

  lemma {:induction false} NoneRefused(m: Model, ws: seq<RawWrite>)
    ensures FirstRefused(m, ws).None? <==> forall i :: 0 <= i < |ws| ==> RawRefused(m, ws[i]).None?
  {
    hide RawRefused;
    if ws != [] {
      NoneRefused(m, ws[1..]);
      assert forall i :: 0 < i < |ws| ==> ws[i] == ws[1..][i - 1];
    }
  }

  function RawStep(s: ProgState, entry: string, ws: seq<RawWrite>, expected: Option<nat>): Outcome
  {
    if IsStale(s, expected) then Refuse(s, ProgError.Stale)
    else if entry !in s.profiles then Refuse(s, NoSuchFixture)
    else if ws == [] then Refuse(s, BadRequest)
    else
      var m := s.profiles[entry].model;
      if FirstRefused(m, ws).Some? then Refuse(s, FirstRefused(m, ws).value)
      else
        NoneRefused(m, ws);
        Done(s.(values := RawWritten(s.values, entry, ws)))
  }

  /** Of several writes to an offset the last one counts; every other value stays. */
  lemma {:induction false} RawWrittenIs(values: Values, entry: string, ws: seq<RawWrite>, k: Key)
    requires forall i :: 0 <= i < |ws| && ws[i].value.Some? ==> 0 <= ws[i].value.value <= 255
    ensures var now := RawWritten(values, entry, ws);
            (k.entry != entry || (forall i :: 0 <= i < |ws| ==> ws[i].offset != k.offset) ==>
              (k in now <==> k in values) && (k in now ==> now[k] == values[k])) &&
            (forall i :: k.entry == entry && 0 <= i < |ws| && ws[i].offset == k.offset && (forall j :: i < j < |ws| ==> ws[j].offset != k.offset) ==>
              (k in now <==> ws[i].value.Some?) && (k in now ==> now[k] == ws[i].value.value))
  {
    if ws != [] {
      var init := ws[..|ws| - 1];
      assert forall i :: 0 <= i < |init| ==> init[i] == ws[i];
      RawWrittenIs(values, entry, init, k);
    }
  }

  lemma RawValid(s: ProgState, entry: string, ws: seq<RawWrite>, expected: Option<nat>)
    requires Valid(s)
    ensures Valid(RawStep(s, entry, ws, expected).0)
  {
    if entry in s.profiles && FirstRefused(s.profiles[entry].model, ws).None? {
      var m := s.profiles[entry].model;
      NoneRefused(m, ws);
      RawTouchable(s.profiles, s.values, entry, ws);
    }
    hide RawWritten, FirstRefused, AllTouchable, AllLive, NoRepeats;
  }

  lemma RawTouchable(profiles: Profiles, values: Values, entry: string, ws: seq<RawWrite>)
    requires AllTouchable(profiles, values) && entry in profiles && forall i :: 0 <= i < |ws| ==> RawRefused(profiles[entry].model, ws[i]).None?
    requires forall i :: 0 <= i < |ws| && ws[i].value.Some? ==> 0 <= ws[i].value.value <= 255
    ensures AllTouchable(profiles, RawWritten(values, entry, ws))
  {
    hide CoveredByParam, RawWritten;
    var now := RawWritten(values, entry, ws);
    forall k | k in now ensures k.entry in profiles && IsTouchable(profiles[k.entry].model, k.offset) {
      RawWrittenIs(values, entry, ws, k);
      if k.entry == entry && exists i :: 0 <= i < |ws| && ws[i].offset == k.offset {
        var i :| 0 <= i < |ws| && ws[i].offset == k.offset;
        assert RawRefused(profiles[entry].model, ws[i]).None?;
      }
    }
  }

  // ---------------------------------------------------------------- clear

  datatype ClearScope = ClearAll | ClearSelection | ClearOther

  /** One attribute group, all of them, or a name that is none of them. */
  datatype GroupArg = AnyGroup | OneGroup(group: Group) | UnknownGroup

  /** The value at k is one a clear releases. */
  predicate Releases(s: ProgState, scope: ClearScope, group: GroupArg, k: Key)
  {
    k.entry !in s.profiles ||
    var prof := s.profiles[k.entry];
    var c := FirstChannel(prof.model, k.offset, 0);
    var has := c < |prof.model.parameters|;
    (group.OneGroup? ==> has && c < |prof.details| && prof.details[c].group == group.group) &&
    (scope.ClearAll? ||
     exists i :: 0 <= i < |s.selection| && s.selection[i].entry == k.entry &&
       (s.selection[i].cell == "" || (has && prof.model.parameters[c].cell == s.selection[i].cell)))
  }

  function Cleared(s: ProgState, scope: ClearScope, group: GroupArg): Values
  {
    map k | k in s.values && !Releases(s, scope, group, k) :: s.values[k]
  }

  function ClearStep(s: ProgState, scope: ClearScope, group: GroupArg, expected: Option<nat>): Outcome
  {
    if IsStale(s, expected) then Refuse(s, ProgError.Stale)
    else if group.UnknownGroup? || scope.ClearOther? then Refuse(s, BadRequest)
    else
      var next := s.(values := Cleared(s, scope, group));
      Done(if scope.ClearAll? && group.AnyGroup? then next.(selection := [], stepping := false) else next)
  }

  lemma ClearValid(s: ProgState, scope: ClearScope, group: GroupArg, expected: Option<nat>)
    requires Valid(s)
    ensures Valid(ClearStep(s, scope, group, expected).0)
  {
    hide Releases, IsTouchable, HasCell;
  }

  /** Clear All releases everything there is. */
  lemma ClearAllEmpties(s: ProgState)
    requires Valid(s)
    ensures ClearStep(s, ClearAll, AnyGroup, None).0.values == map[] && ClearStep(s, ClearAll, AnyGroup, None).0.selection == []
  {
    forall k | k in s.values ensures Releases(s, ClearAll, AnyGroup, k) {}
  }

  // ---------------------------------------------------------------- highlight

  datatype StepKind = NoStep | StepAll | StepNext | StepPrevious | StepOther

  /** Why a change of Highlight is refused. */
  function HighlightRefused(s: ProgState, highlight: Option<bool>, lowlight: Option<bool>, percent: Option<int>, step: StepKind): Option<ProgError>
  {
    var steps := step.StepNext? || step.StepPrevious?;
    if highlight.None? && lowlight.None? && percent.None? && step.NoStep? then Some(BadRequest)
    else if percent.Some? && (percent.value < 0 || percent.value > 100) then Some(BadRequest)
    else if step.StepOther? then Some(BadRequest)
    else if steps && !(if highlight.Some? then highlight.value else s.highlight) then Some(BadRequest)
    else if steps && s.selection == [] then Some(NothingSelected)
    else None
  }

  /** Where stepping goes; it does not wrap, and from the whole selection it starts at either end. */
  function Advanced(step: StepKind, stepping: bool, at: int, last: int): (bool, int)
  {
    match step
    case StepNext => (true, if !stepping then 0 else if at < last then at + 1 else at)
    case StepPrevious => (true, if !stepping then last else if at > 0 then at - 1 else at)
    case StepAll => (false, at)
    case _ => (stepping, at)
  }

  function Highlighted(s: ProgState, highlight: Option<bool>, lowlight: Option<bool>, percent: Option<int>, step: StepKind): ProgState
  {
    var on := if highlight.Some? then highlight.value else s.highlight;
    var (stepping, at) := Advanced(step, s.stepping && (highlight.Some? ==> on), s.step, |s.selection| - 1);
    s.(highlight := on, stepping := stepping, step := at,
       lowlight := if lowlight.Some? then lowlight.value else s.lowlight,
       lowPct := if percent.Some? then percent.value else s.lowPct)
  }

  function HighlightStep(s: ProgState, highlight: Option<bool>, lowlight: Option<bool>, percent: Option<int>, step: StepKind, expected: Option<nat>): Outcome
  {
    if IsStale(s, expected) then Refuse(s, ProgError.Stale)
    else if HighlightRefused(s, highlight, lowlight, percent, step).Some? then Refuse(s, HighlightRefused(s, highlight, lowlight, percent, step).value)
    else Done(Highlighted(s, highlight, lowlight, percent, step))
  }

  lemma HighlightValid(s: ProgState, highlight: Option<bool>, lowlight: Option<bool>, percent: Option<int>, step: StepKind, expected: Option<nat>)
    requires Valid(s)
    ensures Valid(HighlightStep(s, highlight, lowlight, percent, step, expected).0)
  {
    hide AllTouchable, AllLive, NoRepeats, ProfilesOk;
  }

  /** From the whole selection n steps forward reach member n, and stay at the last one from there on. */
  function StepsForward(s: ProgState, n: nat): ProgState
  {
    if n == 0 then s else HighlightStep(StepsForward(s, n - 1), None, None, None, StepNext, None).0
  }

  lemma {:induction false} SteppingReaches(s: ProgState, n: nat)
    requires Valid(s) && s.highlight && !s.stepping && |s.selection| > 0 && n >= 1
    ensures var now := StepsForward(s, n);
            Valid(now) && now.highlight && now.stepping && now.selection == s.selection &&
            now.step == if n <= |s.selection| then n - 1 else |s.selection| - 1
  {
    hide AllTouchable, AllLive, NoRepeats, ProfilesOk;
    if n > 1 {
      SteppingReaches(s, n - 1);
    }
  }

  // ---------------------------------------------------------------- locate and presets

  /** The value Locate gives a channel, if Locate is for it and finds one. */
  type Rule = (Parameter, ChannelDetail) -> Option<uint32>

  /** The values rule gives the channels in reach of t among the first n of m, channels given one before keeping it. */
  function RuleParams(prof: Profile, t: Target, rule: Rule, sofar: Values, n: nat): Values
    requires n <= |prof.model.parameters| == |prof.details|
  {
    if n == 0 then sofar
    else
      var before := RuleParams(prof, t, rule, sofar, n - 1);
      var p := prof.model.parameters[n - 1];
      var k := Key(t.entry, p.offset);
      var v := rule(p, prof.details[n - 1]);
      if (t.cell != "" && p.cell != t.cell) || k in before || v.None? then before else before[k := v.value]
  }

  function RuleTargets(profiles: Profiles, ts: seq<Target>, rule: Rule): Result<Values, ProgError>
    requires ProfilesOk(profiles)
  {
    if ts == [] then Ok(map[])
    else
      match RuleTargets(profiles, ts[..|ts| - 1], rule)
      case Err(e) => Err(e)
      case Ok(sofar) =>
        var t := ts[|ts| - 1];
        if t.entry !in profiles then Err(NoSuchFixture)
        else Ok(RuleParams(profiles[t.entry], t, rule, sofar, |profiles[t.entry].details|))
  }

  /** Keeps the values found, if any were. */
  function HoldStep(s: ProgState, pending: Values): Outcome
  {
    if pending == map[] then Refuse(s, NothingApplied) else Done(s.(values := s.values + pending))
  }

  function LocateStep(s: ProgState, rule: Rule, targets: Option<seq<Target>>, expected: Option<nat>): Outcome
    requires Valid(s)
  {
    var ts := if targets.Some? then targets.value else s.selection;
    if IsStale(s, expected) then Refuse(s, ProgError.Stale)
    else if ts == [] then Refuse(s, NothingSelected)
    else
      match RuleTargets(s.profiles, ts, rule)
      case Err(e) => Refuse(s, e)
      case Ok(pending) => HoldStep(s, pending)
  }

  lemma {:induction false} RuleParamsOn(profiles: Profiles, t: Target, rule: Rule, sofar: Values, n: nat)
    requires t.entry in profiles && n <= |profiles[t.entry].model.parameters| == |profiles[t.entry].details|
    requires OnChannels(profiles, sofar)
    ensures OnChannels(profiles, RuleParams(profiles[t.entry], t, rule, sofar, n))
  {
    if n > 0 {
      RuleParamsOn(profiles, t, rule, sofar, n - 1);
    }
  }

  lemma {:induction false} RuleTargetsOn(profiles: Profiles, ts: seq<Target>, rule: Rule)
    requires ProfilesOk(profiles) && RuleTargets(profiles, ts, rule).Ok?
    ensures OnChannels(profiles, RuleTargets(profiles, ts, rule).value)
  {
    if ts != [] {
      RuleTargetsOn(profiles, ts[..|ts| - 1], rule);
      var t := ts[|ts| - 1];
      RuleParamsOn(profiles, t, rule, RuleTargets(profiles, ts[..|ts| - 1], rule).value, |profiles[t.entry].details|);
      hide RuleParams, OnChannels;
    }
  }

  lemma HeldValid(s: ProgState, pending: Values)
    requires Valid(s) && OnChannels(s.profiles, pending)
    ensures Valid(HoldStep(s, pending).0)
  {
    TouchableSum(s.profiles, s.values, pending);
    hide AllLive, NoRepeats, AllTouchable, OnChannels, ProfilesOk;
  }

  lemma LocateValid(s: ProgState, rule: Rule, targets: Option<seq<Target>>, expected: Option<nat>)
    requires Valid(s)
    ensures Valid(LocateStep(s, rule, targets, expected).0)
  {
    var ts := if targets.Some? then targets.value else s.selection;
    if RuleTargets(s.profiles, ts, rule).Ok? {
      RuleTargetsOn(s.profiles, ts, rule);
      HeldValid(s, RuleTargets(s.profiles, ts, rule).value);
    }
    hide Valid, OnChannels, RuleTargets, HoldStep;
  }

  /** One stored channel of a preset: the fixture it came from, with its type and mode, the channel and the value. */
  datatype PresetValue = PresetValue(entry: string, fixtureType: string, mode: string, offset: uint16, attribute: string, byteCount: nat, value: uint32)

  /** The last value stored for a channel of entry. */
  function Stored(vs: seq<PresetValue>, entry: string, p: Parameter): Option<uint32>
  {
    if vs == [] then None
    else
      var v := vs[|vs| - 1];
      if v.entry == entry && v.offset == p.offset && v.attribute == p.attribute && v.byteCount == p.byteCount then Some(v.value)
      else Stored(vs[..|vs| - 1], entry, p)
  }

  /** The fixtures whose first stored value is of the type and mode, in preset order. */
  function Donors(vs: seq<PresetValue>, fixtureType: string, mode: string, n: nat, seen: set<string>): seq<string>
    requires n <= |vs|
    decreases |vs| - n
  {
    if n == |vs| then []
    else
      var v := vs[n];
      if v.fixtureType == "" || v.entry in seen then Donors(vs, fixtureType, mode, n + 1, seen)
      else (if v.fixtureType == fixtureType && v.mode == mode then [v.entry] else []) + Donors(vs, fixtureType, mode, n + 1, seen + {v.entry})
  }

  function FromDonors(vs: seq<PresetValue>, donors: seq<string>, p: Parameter): Option<uint32>
  {
    if donors == [] then None
    else if Stored(vs, donors[0], p).Some? && Stored(vs, donors[0], p).value <= p.max then Stored(vs, donors[0], p)
    else FromDonors(vs, donors[1..], p)
  }

  /** A channel's recalled value: its own stored one, else that of the first fixture of its type and mode that has one. */
  function Recalled(vs: seq<PresetValue>, entry: string, prof: Profile, p: Parameter): Option<uint32>
  {
    var own := Stored(vs, entry, p);
    if own.Some? && own.value <= p.max then own
    else if prof.fixtureType == "" then None
    else FromDonors(vs, Donors(vs, prof.fixtureType, prof.mode, 0, {}), p)
  }

  lemma {:induction false} DonorsFit(vs: seq<PresetValue>, donors: seq<string>, p: Parameter)
    ensures FromDonors(vs, donors, p).Some? ==> FromDonors(vs, donors, p).value <= p.max
  {
    hide Stored;
    if donors != [] {
      DonorsFit(vs, donors[1..], p);
    }
  }

  /** A recalled value fits the channel, and a fixture's own stored value goes before any other's. */
  lemma RecalledFits(vs: seq<PresetValue>, entry: string, prof: Profile, p: Parameter)
    ensures Recalled(vs, entry, prof, p).Some? ==> Recalled(vs, entry, prof, p).value <= p.max
    ensures Stored(vs, entry, p).Some? && Stored(vs, entry, p).value <= p.max ==> Recalled(vs, entry, prof, p) == Stored(vs, entry, p)
  {
    DonorsFit(vs, Donors(vs, prof.fixtureType, prof.mode, 0, {}), p);
    hide Donors, FromDonors, Stored;
  }

  /** The values a recall gives the channels of a family in reach of t, among the first n. */
  function RecallParams(prof: Profile, t: Target, family: Group, vs: seq<PresetValue>, sofar: Values, n: nat): Values
    requires n <= |prof.model.parameters| == |prof.details|
  {
    if n == 0 then sofar
    else
      var before := RecallParams(prof, t, family, vs, sofar, n - 1);
      var p := prof.model.parameters[n - 1];
      var v := Recalled(vs, t.entry, prof, p);
      if prof.details[n - 1].group != family || (t.cell != "" && p.cell != t.cell) || v.None? then before
      else before[Key(t.entry, p.offset) := v.value]
  }

  function RecallTargets(profiles: Profiles, ts: seq<Target>, family: Group, vs: seq<PresetValue>): Values
    requires ProfilesOk(profiles)
  {
    if ts == [] then map[]
    else
      var sofar := RecallTargets(profiles, ts[..|ts| - 1], family, vs);
      var t := ts[|ts| - 1];
      if t.entry !in profiles then sofar else RecallParams(profiles[t.entry], t, family, vs, sofar, |profiles[t.entry].details|)
  }

  function RecallStep(s: ProgState, family: Group, vs: seq<PresetValue>, expected: Option<nat>): Outcome
    requires Valid(s)
  {
    if IsStale(s, expected) then Refuse(s, ProgError.Stale)
    else if s.selection == [] then Refuse(s, NothingSelected)
    else HoldStep(s, RecallTargets(s.profiles, s.selection, family, vs))
  }

  lemma {:induction false} RecallParamsOn(profiles: Profiles, t: Target, family: Group, vs: seq<PresetValue>, sofar: Values, n: nat)
    requires t.entry in profiles && n <= |profiles[t.entry].model.parameters| == |profiles[t.entry].details|
    requires OnChannels(profiles, sofar)
    ensures OnChannels(profiles, RecallParams(profiles[t.entry], t, family, vs, sofar, n))
  {
    hide Recalled;
    if n > 0 {
      RecallParamsOn(profiles, t, family, vs, sofar, n - 1);
    }
  }

  lemma {:induction false} RecallTargetsOn(profiles: Profiles, ts: seq<Target>, family: Group, vs: seq<PresetValue>)
    requires ProfilesOk(profiles)
    ensures OnChannels(profiles, RecallTargets(profiles, ts, family, vs))
  {
    if ts != [] {
      RecallTargetsOn(profiles, ts[..|ts| - 1], family, vs);
      var t := ts[|ts| - 1];
      if t.entry in profiles {
        RecallParamsOn(profiles, t, family, vs, RecallTargets(profiles, ts[..|ts| - 1], family, vs), |profiles[t.entry].details|);
      }
      hide RecallParams, OnChannels;
    }
  }

  lemma RecallValid(s: ProgState, family: Group, vs: seq<PresetValue>, expected: Option<nat>)
    requires Valid(s)
    ensures Valid(RecallStep(s, family, vs, expected).0)
  {
    RecallTargetsOn(s.profiles, s.selection, family, vs);
    HeldValid(s, RecallTargets(s.profiles, s.selection, family, vs));
    hide Valid, OnChannels, RecallTargets, HoldStep;
  }

  // ---------------------------------------------------------------- sync with the patch

  function FirstProfiles(entries: seq<(string, Profile)>): Profiles
  {
    if entries == [] then map[]
    else
      var before := FirstProfiles(entries[..|entries| - 1]);
      var (id, prof) := entries[|entries| - 1];
      if id in before then before else before[id := prof]
  }

  function FirstOrder(entries: seq<(string, Profile)>): seq<string>
  {
    if entries == [] then []
    else
      var before := FirstOrder(entries[..|entries| - 1]);
      var id := entries[|entries| - 1].0;
      if id in before then before else before + [id]
  }

  function KeptTargets(profiles: Profiles, ts: seq<Target>): seq<Target>
  {
    if ts == [] then []
    else KeptTargets(profiles, ts[..|ts| - 1]) + if IsLive(profiles, ts[|ts| - 1]) then [ts[|ts| - 1]] else []
  }

  /** Values of fixtures that are gone, or whose profile changed, go with them. */
  function KeptValues(was: Profiles, now: Profiles, values: Values): Values
  {
    map k | k in values && k.entry in now && k.entry in was && now[k.entry].fingerprint == was[k.entry].fingerprint :: values[k]
  }

  function ShownOf(order: seq<string>, profiles: Profiles): seq<string>
    requires forall e :: e in order ==> e in profiles
  {
    seq(|order|, i requires 0 <= i < |order| => order[i] + profiles[order[i]].fingerprint + profiles[order[i]].shown)
  }

  lemma {:induction false} FirstAre(entries: seq<(string, Profile)>)
    ensures NoRepeats(FirstOrder(entries)) && forall e :: e in FirstOrder(entries) <==> e in FirstProfiles(entries)
    ensures forall e :: e in FirstProfiles(entries) ==> exists i :: 0 <= i < |entries| && entries[i] == (e, FirstProfiles(entries)[e])
  {
    if entries != [] {
      var init := entries[..|entries| - 1];
      FirstAre(init);
      forall e | e in FirstProfiles(entries) ensures exists i :: 0 <= i < |entries| && entries[i] == (e, FirstProfiles(entries)[e]) {
        if e in FirstProfiles(init) {
          var i :| 0 <= i < |init| && init[i] == (e, FirstProfiles(init)[e]);
          assert entries[i] == init[i];
        } else {
          assert entries[|entries| - 1] == (e, FirstProfiles(entries)[e]);
        }
      }
    }
  }

  /** The state once it follows the patch. */
  function Synced(s: ProgState, token: string, entries: seq<(string, Profile)>, clear: bool): (r: ProgState)
    ensures r.revision == s.revision
  {
    FirstAre(entries);
    var profiles, order := FirstProfiles(entries), FirstOrder(entries);
    var kept := if clear then [] else KeptTargets(profiles, s.selection);
    s.(order := order, profiles := profiles, selection := kept,
       values := if clear then map[] else KeptValues(s.profiles, profiles, s.values),
       shown := ShownOf(order, profiles), token := Some(token),
       highlight := s.highlight && !clear,
       stepping := s.stepping && !clear && |kept| == |s.selection|)
  }

  /** Something the read model shows is not what it was. */
  predicate Differs(s: ProgState, next: ProgState)
  {
    next.shown != s.shown || |next.selection| != |s.selection| || |next.values| != |s.values| || next.highlight != s.highlight
  }

  /** Follows the patch. Reports whether anything the read model shows changed, and only then does the revision move. */
  function SyncStep(s: ProgState, token: string, entries: seq<(string, Profile)>, clear: bool): (ProgState, bool)
  {
    if !clear && s.token == Some(token) then (s, false)
    else
      var next := Synced(s, token, entries, clear);
      (next.(revision := s.revision + if Differs(s, next) then 1 else 0), Differs(s, next))
  }

  /** Profiles with one digest offer the same offsets: the digest is taken to tell profiles apart. */
  ghost predicate DigestsTell(was: Profiles, entries: seq<(string, Profile)>)
  {
    forall e, i :: e in was && 0 <= i < |entries| && was[e].fingerprint == entries[i].1.fingerprint ==>
      forall o :: IsTouchable(was[e].model, o) <==> IsTouchable(entries[i].1.model, o)
  }

  lemma {:induction false} KeptAre(profiles: Profiles, ts: seq<Target>)
    ensures forall t :: t in KeptTargets(profiles, ts) <==> t in ts && IsLive(profiles, t)
    ensures |KeptTargets(profiles, ts)| <= |ts| && (|KeptTargets(profiles, ts)| == |ts| ==> KeptTargets(profiles, ts) == ts)
  {
    hide IsLive;
    if ts != [] {
      var init, last := ts[..|ts| - 1], ts[|ts| - 1];
      KeptAre(profiles, init);
      assert ts == init + [last];
      var kept := KeptTargets(profiles, init);
      hide KeptTargets;
    }
  }

  lemma {:induction false} KeptOnce(profiles: Profiles, ts: seq<Target>)
    requires NoRepeats(ts)
    ensures NoRepeats(KeptTargets(profiles, ts))
  {
    hide IsLive;
    if ts != [] {
      var init := ts[..|ts| - 1];
      KeptOnce(profiles, init);
      KeptAre(profiles, init);
    }
  }

  lemma SyncValid(s: ProgState, token: string, entries: seq<(string, Profile)>, clear: bool)
    requires Valid(s) && DigestsTell(s.profiles, entries) && forall i :: 0 <= i < |entries| ==> |entries[i].1.details| == |entries[i].1.model.parameters|
    ensures Valid(SyncStep(s, token, entries, clear).0)
  {
    FirstAre(entries);
    KeptAre(FirstProfiles(entries), s.selection);
    KeptOnce(FirstProfiles(entries), s.selection);
    SyncedProfiles(entries);
    hide FirstProfiles, FirstOrder, KeptTargets, KeptValues, IsLive, ShownOf, IsTouchable;
  }

  lemma SyncedProfiles(entries: seq<(string, Profile)>)
    requires forall i :: 0 <= i < |entries| ==> |entries[i].1.details| == |entries[i].1.model.parameters|
    ensures ProfilesOk(FirstProfiles(entries))
  {
    FirstAre(entries);
    hide FirstProfiles, FirstOrder;
    var now := FirstProfiles(entries);
    forall e | e in now ensures |now[e].details| == |now[e].model.parameters| {
      var i :| 0 <= i < |entries| && entries[i] == (e, now[e]);
    }
  }

  /** A value outlives a sync exactly when its fixture is still there with the profile it had. */
  lemma ValuesFollow(s: ProgState, token: string, entries: seq<(string, Profile)>, k: Key)
    requires s.token != Some(token) && k in s.values
    ensures k in SyncStep(s, token, entries, false).0.values <==>
              k.entry in s.profiles && k.entry in FirstProfiles(entries) && FirstProfiles(entries)[k.entry].fingerprint == s.profiles[k.entry].fingerprint
    ensures k in SyncStep(s, token, entries, false).0.values ==> SyncStep(s, token, entries, false).0.values[k] == s.values[k]
  {
    hide FirstProfiles, FirstOrder, KeptTargets, ShownOf;
  }

  // ---------------------------------------------------------------- whole runs

  datatype Op =
    | OpSelect(action: SelectAction, targets: seq<Target>)
    | OpSet(request: Request, on: Option<seq<Target>>)
    | OpFan(from: Request, to: Request, shape: Option<Shape>, on: Option<seq<Target>>)
    | OpRaw(entry: string, writes: seq<RawWrite>)
    | OpClear(scope: ClearScope, group: GroupArg)
    | OpHighlight(highlight: Option<bool>, lowlight: Option<bool>, percent: Option<int>, step: StepKind)
    | OpLocate(rule: Rule, on: Option<seq<Target>>)
    | OpRecall(family: Group, stored: seq<PresetValue>)

  /** A call with the revision its browser last saw, or a change of the patch. */
  datatype Event = Call(op: Op, expected: Option<nat>) | Sync(token: string, entries: seq<(string, Profile)>, clear: bool)

  function CallStep(s: ProgState, op: Op, expected: Option<nat>): Outcome
    requires Valid(s)
  {
    match op
    case OpSelect(action, targets) => SelectStep(s, action, targets, expected)
    case OpSet(request, on) => SetStep(s, request, on, expected)
    case OpFan(from, to, shape, on) => FanStep(s, from, to, shape, on, expected)
    case OpRaw(entry, writes) => RawStep(s, entry, writes, expected)
    case OpClear(scope, group) => ClearStep(s, scope, group, expected)
    case OpHighlight(highlight, lowlight, percent, step) => HighlightStep(s, highlight, lowlight, percent, step, expected)
    case OpLocate(rule, on) => LocateStep(s, rule, on, expected)
    case OpRecall(family, stored) => RecallStep(s, family, stored, expected)
  }

  lemma CallValid(s: ProgState, op: Op, expected: Option<nat>)
    requires Valid(s)
    ensures Valid(CallStep(s, op, expected).0)
  {
    hide Valid, SelectStep, SetStep, FanStep, RawStep, ClearStep, HighlightStep, LocateStep, RecallStep;
    match op
    case OpSelect(action, targets) => SelectValid(s, action, targets, expected);
    case OpSet(request, on) => SetValid(s, request, on, expected);
    case OpFan(from, to, shape, on) => FanValid(s, from, to, shape, on, expected);
    case OpRaw(entry, writes) => RawValid(s, entry, writes, expected);
    case OpClear(scope, group) => ClearValid(s, scope, group, expected);
    case OpHighlight(highlight, lowlight, percent, step) => HighlightValid(s, highlight, lowlight, percent, step, expected);
    case OpLocate(rule, on) => LocateValid(s, rule, on, expected);
    case OpRecall(family, stored) => RecallValid(s, family, stored, expected);
  }

  /** All or nothing: a refused call changes nothing, one carried out moves the revision by one, and a
      call is refused as stale exactly when its browser had not seen the present revision. */
  ghost predicate Moves(s: ProgState, o: Outcome, expected: Option<nat>)
  {
    (o.1.Some? ==> o.0 == s) && (o.1.None? ==> o.0.revision == s.revision + 1) && (o.1 == Some(ProgError.Stale) <==> IsStale(s, expected))
  }

  lemma CommitMoves(s: ProgState, staged: Staged)
    ensures Moves(s, CommitStep(s, staged), None)
  {
    hide AppliedCommand;
  }

  lemma SelectMoves(s: ProgState, op: Op, expected: Option<nat>)
    requires op.OpSelect?
    ensures Moves(s, SelectStep(s, op.action, op.targets, expected), expected)
  {
    BadNotStale(s.profiles, op.targets);
    hide Selected, FirstBad;
  }

  lemma SetMoves(s: ProgState, op: Op, expected: Option<nat>)
    requires op.OpSet? && Valid(s)
    ensures Moves(s, SetStep(s, op.request, op.on, expected), expected)
  {
    hide CommitStep, StagedFor, MatchesOk, Valid, RequestOk, MatchTargets;
    var ts := if op.on.Some? then op.on.value else s.selection;
    MatchNotStale(s.profiles, ts, op.request.attribute);
    if MatchStep(s, op.on, op.request.attribute).Ok? {
      MatchStepOk(s, op.on, op.request.attribute);
      CommitMoves(s, StagedFor(s, MatchStep(s, op.on, op.request.attribute).value, SetAsk(op.request), NamesFunction(op.request)));
    }
  }

  lemma FanMoves(s: ProgState, op: Op, expected: Option<nat>)
    requires op.OpFan? && Valid(s)
    ensures Moves(s, FanStep(s, op.from, op.to, op.shape, op.on, expected), expected)
  {
    hide CommitStep, StagedFor, MatchesOk, Valid, RequestOk, MatchTargets, FanAsk;
    var ts := if op.on.Some? then op.on.value else s.selection;
    MatchNotStale(s.profiles, ts, op.from.attribute);
    if op.shape.Some? && MatchStep(s, op.on, op.from.attribute).Ok? {
      var matched := MatchStep(s, op.on, op.from.attribute).value;
      if |matched.matches| >= Needed(op.shape.value) {
        MatchStepOk(s, op.on, op.from.attribute);
        CommitMoves(s, StagedFor(s, matched, FanAsk(op.from, op.to, op.shape.value, |matched.matches|), NamesFunction(op.from)));
      }
    }
  }

  lemma RawMoves(s: ProgState, op: Op, expected: Option<nat>)
    requires op.OpRaw?
    ensures Moves(s, RawStep(s, op.entry, op.writes, expected), expected)
  {
    if op.entry in s.profiles {
      RawNotStale(s.profiles[op.entry].model, op.writes);
    }
    hide RawWritten, FirstRefused;
  }

  lemma LocateMoves(s: ProgState, op: Op, expected: Option<nat>)
    requires op.OpLocate? && Valid(s)
    ensures Moves(s, LocateStep(s, op.rule, op.on, expected), expected)
  {
    hide RuleTargets, AllTouchable, AllLive, NoRepeats;
    RuleNotStale(s.profiles, if op.on.Some? then op.on.value else s.selection, op.rule);
  }

  lemma OtherMoves(s: ProgState, op: Op, expected: Option<nat>)
    requires Valid(s) && (op.OpClear? || op.OpHighlight? || op.OpRecall?)
    ensures Moves(s, CallStep(s, op, expected), expected)
  {
    hide Valid, Cleared, RecallTargets, Releases;
  }

  /** Every call is all or nothing. */
  lemma CallMoves(s: ProgState, op: Op, expected: Option<nat>)
    requires Valid(s)
    ensures Moves(s, CallStep(s, op, expected), expected)
  {
    hide Valid, Moves, SelectStep, SetStep, FanStep, RawStep, LocateStep, ClearStep, HighlightStep, RecallStep;
    match op
    case OpSelect(_, _) => SelectMoves(s, op, expected);
    case OpSet(_, _) => SetMoves(s, op, expected);
    case OpFan(_, _, _, _) => FanMoves(s, op, expected);
    case OpRaw(_, _) => RawMoves(s, op, expected);
    case OpLocate(_, _) => LocateMoves(s, op, expected);
    case _ => OtherMoves(s, op, expected);
  }

  lemma {:induction false} BadNotStale(profiles: Profiles, ts: seq<Target>)
    ensures FirstBad(profiles, ts) != Some(ProgError.Stale)
  {
    if ts != [] {
      BadNotStale(profiles, ts[1..]);
    }
  }

  lemma MatchNotStale(profiles: Profiles, ts: seq<Target>, attribute: string)
    ensures ts != [] ==> MatchTargets(profiles, ts, attribute, |ts|) != Err(ProgError.Stale)
  {
    MatchErrs(profiles, ts, attribute, |ts|);
  }

  lemma {:induction false} MatchErrs(profiles: Profiles, ts: seq<Target>, attribute: string, n: nat)
    requires n <= |ts|
    ensures MatchTargets(profiles, ts, attribute, n) != Err(ProgError.Stale)
  {
    hide MatchParams, HasCell;
    if n > 0 {
      MatchErrs(profiles, ts, attribute, n - 1);
    }
  }

  lemma {:induction false} RawNotStale(m: Model, ws: seq<RawWrite>)
    ensures FirstRefused(m, ws) != Some(ProgError.Stale)
  {
    if ws != [] {
      RawNotStale(m, ws[1..]);
    }
  }

  lemma {:induction false} RuleNotStale(profiles: Profiles, ts: seq<Target>, rule: Rule)
    requires ProfilesOk(profiles)
    ensures RuleTargets(profiles, ts, rule) != Err(ProgError.Stale)
  {
    hide RuleParams;
    if ts != [] {
      RuleNotStale(profiles, ts[..|ts| - 1], rule);
    }
  }

  function EventStep(s: ProgState, e: Event): ProgState
    requires Valid(s)
  {
    match e
    case Call(op, expected) => CallStep(s, op, expected).0
    case Sync(token, entries, clear) => SyncStep(s, token, entries, clear).0
  }

  /** Call i of the run was carried out. */
  ghost predicate Succeeds(s: ProgState, e: Event)
    requires Valid(s)
  {
    e.Call? && CallStep(s, e.op, e.expected).1.None?
  }

  ghost predicate SyncOk(s: ProgState, e: Event)
  {
    e.Sync? ==> DigestsTell(s.profiles, e.entries) && forall i :: 0 <= i < |e.entries| ==> |e.entries[i].1.details| == |e.entries[i].1.model.parameters|
  }

  ghost predicate Stepped(ss: seq<ProgState>, es: seq<Event>, i: nat)
    requires |ss| == |es| + 1 && i < |es|
  {
    Valid(ss[i]) ==> SyncOk(ss[i], es[i]) && ss[i + 1] == EventStep(ss[i], es[i])
  }

  ghost predicate IsRun(ss: seq<ProgState>, es: seq<Event>)
  {
    |ss| == |es| + 1 && Valid(ss[0]) && forall i :: 0 <= i < |es| ==> Stepped(ss, es, i)
  }

  /** Over every run of calls and patch changes the state stays valid and the revision never goes back. */
  lemma {:induction false} RunValid(ss: seq<ProgState>, es: seq<Event>, i: nat, j: nat)
    requires IsRun(ss, es) && i <= j <= |es|
    ensures Valid(ss[j]) && ss[i].revision <= ss[j].revision && Valid(ss[i])
    decreases j
  {
    hide Valid, CallStep, SyncStep;
    if j > 0 {
      RunValid(ss, es, if i < j then i else i - 1, j - 1);
      assert Stepped(ss, es, j - 1);
      EventKeeps(ss[j - 1], es[j - 1]);
    }
  }

  lemma EventKeeps(s: ProgState, e: Event)
    requires Valid(s) && SyncOk(s, e)
    ensures Valid(EventStep(s, e)) && EventStep(s, e).revision >= s.revision
    ensures Succeeds(s, e) ==> EventStep(s, e).revision == s.revision + 1 && (e.expected.Some? ==> e.expected.value == s.revision)
  {
    hide Valid, CallStep, DigestsTell, FirstProfiles, FirstOrder, KeptTargets, KeptValues, ShownOf;
    match e
    case Call(op, expected) =>
      CallValid(s, op, expected);
      CallMoves(s, op, expected);
    case Sync(token, entries, clear) =>
      SyncValid(s, token, entries, clear);
  }

  /** Of two calls that expect the same revision at most one is carried out. */
  lemma OneWinner(ss: seq<ProgState>, es: seq<Event>, i: nat, j: nat)
    requires IsRun(ss, es) && i < j < |es| && es[i].Call? && es[j].Call? && es[i].expected.Some? && es[i].expected == es[j].expected
    ensures Valid(ss[i]) && Valid(ss[j]) && !(Succeeds(ss[i], es[i]) && Succeeds(ss[j], es[j]))
  {
    RunValid(ss, es, i, i);
    RunValid(ss, es, i + 1, j);
    assert Stepped(ss, es, i) && Stepped(ss, es, j);
    hide Valid, EventStep, CallStep;
    EventKeeps(ss[i], es[i]);
    EventKeeps(ss[j], es[j]);
  }
}
