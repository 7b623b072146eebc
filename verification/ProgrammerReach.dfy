/** What the programmer's calls reach, told by the fixtures' parameters: which channels carry an attribute,
    what a clear releases, what Locate and a recalled preset leave on the channels. */
module ProgrammerReach {
  import opened Prelude
  import opened ChannelMap
  import opened ParameterModel
  import opened Faders
  import opened FaderChannels
  import opened ChannelValues
  import opened ProgrammerModel
  import opened ProgrammerSteps
  import opened ProgrammerRuns

  // ---------------------------------------------------------------- attributes

  /** A cell's channels with the attribute, or the fixture's; but the dimmers of a whole fixture are what dims
      all of it. */
  lemma CarriesByParameter(m: Model, t: Target, attribute: string, p: Parameter)
    ensures Carries(m, t, attribute, p) <==>
              p.attribute == attribute && if t.cell != "" then p.cell == t.cell else attribute == "Dimmer" ==> WholeIntensity(m, p)
  {
    hide PartKey;
  }

  /** No target before the i-th has a channel with key k and the attribute. */
  ghost predicate Unwanted(profiles: Profiles, targets: seq<Target>, attribute: string, i: nat, k: Key)
    requires i <= |targets|
  {
    forall n, j :: !WantedAt(profiles, targets, attribute, i, n, j, k)
  }

  /** The channel with key k, found in match mt, belongs to the first target that wants it. */
  ghost predicate ByFirst(profiles: Profiles, targets: seq<Target>, attribute: string, n: nat, mt: Match, k: Key)
    requires n <= |targets|
  {
    exists i: nat :: i < n && targets[i] == mt.target && Unwanted(profiles, targets, attribute, i, k)
  }

  ghost predicate AllByFirst(profiles: Profiles, targets: seq<Target>, attribute: string, n: nat, r: Matched)
    requires n <= |targets|
  {
    (forall a, b, k :: MatchedAt(profiles, r.matches, a, b, k) ==> ByFirst(profiles, targets, attribute, n, r.matches[a], k)) &&
    forall i :: 0 <= i < n && targets[i].entry in profiles && CarriesNowhere(profiles[targets[i].entry].model, targets[i], attribute) ==>
      targets[i] in r.missing
  }

  /** Each channel goes to the first target to want it, and every target without such a channel is reported. */
  lemma {:induction false} FirstReaches(profiles: Profiles, targets: seq<Target>, attribute: string, n: nat)
    requires n <= |targets| && MatchTargets(profiles, targets, attribute, n).Ok?
    ensures AllByFirst(profiles, targets, attribute, n, MatchTargets(profiles, targets, attribute, n).value)
  {
    hide AllByFirst;
    if n == 0 {
      NoneReached(profiles, targets, attribute);
    } else {
      FirstReaches(profiles, targets, attribute, n - 1);
      MatchedExactly(profiles, targets, attribute, n - 1);
      FirstOneMore(profiles, targets, attribute, n - 1, MatchTargets(profiles, targets, attribute, n - 1).value);
    }
  }

  lemma NoneReached(profiles: Profiles, targets: seq<Target>, attribute: string)
    ensures AllByFirst(profiles, targets, attribute, 0, Matched([], [], {}))
  {}

  lemma FirstOneMore(profiles: Profiles, targets: seq<Target>, attribute: string, n: nat, sofar: Matched)
    requires n < |targets| && MatchedGood(profiles, targets, attribute, n, sofar) && AllByFirst(profiles, targets, attribute, n, sofar)
    requires MatchTarget(profiles, targets[n], attribute, sofar).Ok?
    ensures AllByFirst(profiles, targets, attribute, n + 1, MatchTarget(profiles, targets[n], attribute, sofar).value)
  {
    var t := targets[n];
    var m := profiles[t.entry].model;
    var next := MatchTarget(profiles, t, attribute, sofar).value;
    hide ByFirst, AllByFirst;
    ParamsFound(m, t, attribute, sofar.done, |m.parameters|);
    var (params, done, hit) := MatchParams(m, t, attribute, sofar.done, |m.parameters|);
    forall a, b, k | MatchedAt(profiles, next.matches, a, b, k) ensures ByFirst(profiles, targets, attribute, n + 1, next.matches[a], k) {
      if a < |sofar.matches| {
        assert MatchedAt(profiles, sofar.matches, a, b, k);
        StillFirst(profiles, targets, attribute, n, sofar, a, b, k);
      } else {
        assert next.matches[a] == Match(t, params) && k !in sofar.done;
        NewFirst(profiles, targets, attribute, n, sofar.done, k, Match(t, params));
      }
    }
    AllFirstAre(profiles, targets, attribute, n, sofar, next);
  }

  lemma StillFirst(profiles: Profiles, targets: seq<Target>, attribute: string, n: nat, sofar: Matched, a: int, b: int, k: Key)
    requires n < |targets| && AllByFirst(profiles, targets, attribute, n, sofar) && MatchedAt(profiles, sofar.matches, a, b, k)
    ensures ByFirst(profiles, targets, attribute, n + 1, sofar.matches[a], k)
  {
    var i: nat :| i < n && targets[i] == sofar.matches[a].target && Unwanted(profiles, targets, attribute, i, k);
  }

  lemma NewFirst(profiles: Profiles, targets: seq<Target>, attribute: string, n: nat, done: set<Key>, k: Key, mt: Match)
    requires n < |targets| && AllWanted(profiles, targets, attribute, n, done) && k !in done && mt.target == targets[n]
    ensures ByFirst(profiles, targets, attribute, n + 1, mt, k)
  {
    assert Unwanted(profiles, targets, attribute, n, k);
  }

  lemma AllFirstAre(profiles: Profiles, targets: seq<Target>, attribute: string, n: nat, sofar: Matched, next: Matched)
    requires n < |targets| && AllByFirst(profiles, targets, attribute, n, sofar) && Ok(next) == MatchTarget(profiles, targets[n], attribute, sofar)
    requires forall a, b, k :: MatchedAt(profiles, next.matches, a, b, k) ==> ByFirst(profiles, targets, attribute, n + 1, next.matches[a], k)
    ensures AllByFirst(profiles, targets, attribute, n + 1, next)
  {
    ParamsFound(profiles[targets[n].entry].model, targets[n], attribute, sofar.done, |profiles[targets[n].entry].model.parameters|);
    hide ByFirst;
  }

  // ---------------------------------------------------------------- clear

  /** Parameter c is the fixture's channel at the offset, the first one there. */
  predicate ChannelAt(prof: Profile, offset: uint16, c: int)
  {
    0 <= c < |prof.model.parameters| && prof.model.parameters[c].offset == offset &&
    forall i :: 0 <= i < c ==> prof.model.parameters[i].offset != offset
  }

  lemma {:induction false} FirstFrom(m: Model, offset: uint16, i: nat)
    requires i <= |m.parameters|
    ensures forall n :: i <= n < FirstChannel(m, offset, i) ==> m.parameters[n].offset != offset
    decreases |m.parameters| - i
  {
    if i < |m.parameters| && m.parameters[i].offset != offset {
      FirstFrom(m, offset, i + 1);
    }
  }

  lemma FirstChannelIs(prof: Profile, offset: uint16)
    ensures var c := FirstChannel(prof.model, offset, 0);
            if c < |prof.model.parameters| then ChannelAt(prof, offset, c) && forall i :: ChannelAt(prof, offset, i) ==> i == c
            else forall i :: !ChannelAt(prof, offset, i)
  {
    FirstFrom(prof.model, offset, 0);
  }

  /** The value at k belongs to a channel of the group. */
  ghost predicate OfGroup(prof: Profile, offset: uint16, group: Group)
  {
    exists c :: ChannelAt(prof, offset, c) && c < |prof.details| && prof.details[c].group == group
  }

  /** A selected target has the value at k: a fixture all of its own, a cell those of its channels. */
  ghost predicate InSelection(s: ProgState, k: Key)
    requires k.entry in s.profiles
  {
    exists n :: 0 <= n < |s.selection| && s.selection[n].entry == k.entry &&
      (s.selection[n].cell == "" || exists c :: ChannelAt(s.profiles[k.entry], k.offset, c) && s.profiles[k.entry].model.parameters[c].cell == s.selection[n].cell)
  }

  /** The clear names the value at k: by its group, if it names one, and by the selection, if it is for that. */
  ghost predicate Names(s: ProgState, scope: ClearScope, group: GroupArg, k: Key)
    requires k.entry in s.profiles
  {
    (group.OneGroup? ==> OfGroup(s.profiles[k.entry], k.offset, group.group)) && (scope.ClearSelection? ==> InSelection(s, k))
  }

  /** A clear releases exactly the values it names, of one group where it names one and of the selected targets
      where it is for the selection, raw values only without a group; only a full clear empties the selection. */
  lemma ClearExactly(s: ProgState, scope: ClearScope, group: GroupArg, k: Key)
    requires Valid(s) && !scope.ClearOther? && !group.UnknownGroup? && k.entry in s.profiles
    ensures var (now, err) := ClearStep(s, scope, group, None);
            err == None && now.profiles == s.profiles &&
            (k in now.values <==> k in s.values && !Names(s, scope, group, k)) &&
            (k in now.values ==> now.values[k] == s.values[k]) &&
            now.selection == if scope.ClearAll? && group.AnyGroup? then [] else s.selection
  {
    hide Names;
    ReleasedIs(s, scope, group, k);
  }

  lemma ReleasedIs(s: ProgState, scope: ClearScope, group: GroupArg, k: Key)
    requires k.entry in s.profiles && !scope.ClearOther? && !group.UnknownGroup?
    ensures Releases(s, scope, group, k) <==> Names(s, scope, group, k)
  {
    var prof := s.profiles[k.entry];
    FirstChannelIs(prof, k.offset);
    var c := FirstChannel(prof.model, k.offset, 0);
    hide ChannelAt;
    assert c < |prof.model.parameters| ==> ChannelAt(prof, k.offset, c);
  }

  // ---------------------------------------------------------------- Locate

  /** Channel i of the fixture is in reach of t. */
  predicate Reaches(profiles: Profiles, t: Target, i: int, k: Key)
  {
    t.entry == k.entry && t.entry in profiles && 0 <= i < |profiles[t.entry].model.parameters| && i < |profiles[t.entry].details| &&
    profiles[t.entry].model.parameters[i].offset == k.offset && (t.cell == "" || profiles[t.entry].model.parameters[i].cell == t.cell)
  }

  /** The rule gives a channel with key k, in reach of one of ts, the value v. */
  ghost predicate RuleGives(profiles: Profiles, ts: seq<Target>, rule: Rule, k: Key, v: uint32)
  {
    exists n, i :: 0 <= n < |ts| && Reaches(profiles, ts[n], i, k) &&
      rule(profiles[k.entry].model.parameters[i], profiles[k.entry].details[i]) == Some(v)
  }

  /** The same of one target's first channels, or given before. */
  ghost predicate GivenBy(profiles: Profiles, t: Target, rule: Rule, n: nat, k: Key, v: uint32)
  {
    exists i :: 0 <= i < n && Reaches(profiles, t, i, k) && rule(profiles[k.entry].model.parameters[i], profiles[k.entry].details[i]) == Some(v)
  }

  lemma {:induction false} RuleParamsGive(profiles: Profiles, t: Target, rule: Rule, sofar: Values, n: nat)
    requires t.entry in profiles && n <= |profiles[t.entry].model.parameters| == |profiles[t.entry].details|
    ensures var now := RuleParams(profiles[t.entry], t, rule, sofar, n);
            (forall k :: k in sofar ==> k in now && now[k] == sofar[k]) &&
            (forall k :: k in now && k !in sofar ==> GivenBy(profiles, t, rule, n, k, now[k])) &&
            forall k, v :: GivenBy(profiles, t, rule, n, k, v) ==> k in now
  {
    if n > 0 {
      RuleParamsGive(profiles, t, rule, sofar, n - 1);
      var before, now := RuleParams(profiles[t.entry], t, rule, sofar, n - 1), RuleParams(profiles[t.entry], t, rule, sofar, n);
      forall k | k in now && k !in sofar ensures GivenBy(profiles, t, rule, n, k, now[k]) {
        if k in before {
          var i :| 0 <= i < n - 1 && Reaches(profiles, t, i, k) &&
                   rule(profiles[k.entry].model.parameters[i], profiles[k.entry].details[i]) == Some(before[k]);
        } else {
          assert Reaches(profiles, t, n - 1, k);
        }
      }
      forall k, v: uint32 | GivenBy(profiles, t, rule, n, k, v) ensures k in now {
        var i :| 0 <= i < n && Reaches(profiles, t, i, k) && rule(profiles[k.entry].model.parameters[i], profiles[k.entry].details[i]) == Some(v);
        if i < n - 1 {
          assert GivenBy(profiles, t, rule, n - 1, k, v);
        }
      }
    }
  }

  /** pending holds, for every channel that the rule has a value for and a target reaches, one such value. */
  ghost predicate Located(profiles: Profiles, ts: seq<Target>, rule: Rule, pending: Values)
  {
    (forall k :: k in pending ==> RuleGives(profiles, ts, rule, k, pending[k])) && forall k, v :: RuleGives(profiles, ts, rule, k, v) ==> k in pending
  }

  lemma {:induction false} RuleTargetsGive(profiles: Profiles, ts: seq<Target>, rule: Rule)
    requires ProfilesOk(profiles)
    ensures RuleTargets(profiles, ts, rule).Ok? <==> forall n :: 0 <= n < |ts| ==> ts[n].entry in profiles
    ensures RuleTargets(profiles, ts, rule).Ok? ==> Located(profiles, ts, rule, RuleTargets(profiles, ts, rule).value)
  {
    if ts != [] {
      var last := |ts| - 1;
      RuleTargetsGive(profiles, ts[..last], rule);
      if RuleTargets(profiles, ts, rule).Ok? {
        var sofar := RuleTargets(profiles, ts[..last], rule).value;
        RuleParamsGive(profiles, ts[last], rule, sofar, |profiles[ts[last].entry].details|);
        LocatedMore(profiles, ts, rule, sofar, RuleTargets(profiles, ts, rule).value);
      }
    }
  }

  lemma LocatedMore(profiles: Profiles, ts: seq<Target>, rule: Rule, sofar: Values, now: Values)
    requires ProfilesOk(profiles) && ts != [] && ts[|ts| - 1].entry in profiles && Located(profiles, ts[..|ts| - 1], rule, sofar)
    requires var t := ts[|ts| - 1];
             (forall k :: k in sofar ==> k in now && now[k] == sofar[k]) &&
             (forall k :: k in now && k !in sofar ==> GivenBy(profiles, t, rule, |profiles[t.entry].details|, k, now[k])) &&
             forall k, v :: GivenBy(profiles, t, rule, |profiles[t.entry].details|, k, v) ==> k in now
    ensures Located(profiles, ts, rule, now)
  {
    var last := |ts| - 1;
    var init, t := ts[..last], ts[last];
    forall k | k in now ensures RuleGives(profiles, ts, rule, k, now[k]) {
      if k in sofar {
        var n, i :| 0 <= n < |init| && Reaches(profiles, init[n], i, k) &&
                    rule(profiles[k.entry].model.parameters[i], profiles[k.entry].details[i]) == Some(now[k]);
        assert Reaches(profiles, ts[n], i, k);
      } else {
        var i :| 0 <= i < |profiles[t.entry].details| && Reaches(profiles, t, i, k) &&
                 rule(profiles[k.entry].model.parameters[i], profiles[k.entry].details[i]) == Some(now[k]);
        assert Reaches(profiles, ts[last], i, k);
      }
    }
    forall k, v: uint32 | RuleGives(profiles, ts, rule, k, v) ensures k in now {
      var n, i :| 0 <= n < |ts| && Reaches(profiles, ts[n], i, k) &&
                  rule(profiles[k.entry].model.parameters[i], profiles[k.entry].details[i]) == Some(v);
      if n < last {
        assert Reaches(profiles, init[n], i, k);
        assert RuleGives(profiles, init, rule, k, v);
      } else {
        assert GivenBy(profiles, t, rule, |profiles[t.entry].details|, k, v);
      }
    }
  }

  /** now are the values of s with those of pending put over them. */
  ghost predicate PutOver(now: Values, was: Values, pending: Values)
  {
    forall k :: (k in now <==> k in was || k in pending) && (k in now ==> now[k] == if k in pending then pending[k] else was[k])
  }

  /** Locate puts a value the rule gives on every channel in reach that it has one for, whatever was held
      there, and leaves every other value; it is refused where a target is gone or there is no such channel. */
  lemma LocateExactly(s: ProgState, rule: Rule, ts: seq<Target>)
    requires Valid(s) && ts != []
    ensures var (now, err) := LocateStep(s, rule, Some(ts), None);
            (err == None <==> (forall n :: 0 <= n < |ts| ==> ts[n].entry in s.profiles) && exists k, v :: RuleGives(s.profiles, ts, rule, k, v)) &&
            (err == None ==> exists pending :: Located(s.profiles, ts, rule, pending) && PutOver(now.values, s.values, pending))
  {
    hide RuleGives, Reaches, PutOver;
    RuleTargetsGive(s.profiles, ts, rule);
    if RuleTargets(s.profiles, ts, rule).Ok? {
      var pending := RuleTargets(s.profiles, ts, rule).value;
      HeldOver(s, pending);
    }
  }

  lemma HeldOver(s: ProgState, pending: Values)
    ensures HoldStep(s, pending).1 == None <==> exists k :: k in pending
    ensures HoldStep(s, pending).1 == None ==> PutOver(HoldStep(s, pending).0.values, s.values, pending)
  {
    if pending != map[] {
      var k :| k in pending;
    }
  }

  // ---------------------------------------------------------------- recalled presets

  /** Value n of the preset was stored for the channel p of entry. */
  predicate StoredAt(vs: seq<PresetValue>, n: int, entry: string, p: Parameter)
  {
    0 <= n < |vs| && vs[n].entry == entry && vs[n].offset == p.offset && vs[n].attribute == p.attribute && vs[n].byteCount == p.byteCount
  }

  /** v is the last value stored for the channel, and fits it. */
  ghost predicate Fits(vs: seq<PresetValue>, entry: string, p: Parameter, v: uint32)
  {
    v <= p.max && exists n :: StoredAt(vs, n, entry, p) && vs[n].value == v && forall l :: l > n ==> !StoredAt(vs, l, entry, p)
  }

  lemma {:induction false} StoredIs(vs: seq<PresetValue>, entry: string, p: Parameter)
    ensures Stored(vs, entry, p).None? <==> forall n :: !StoredAt(vs, n, entry, p)
    ensures Stored(vs, entry, p).Some? ==>
              exists n :: StoredAt(vs, n, entry, p) && vs[n].value == Stored(vs, entry, p).value && forall l :: l > n ==> !StoredAt(vs, l, entry, p)
  {
    if vs != [] {
      var n := |vs| - 1;
      var init := vs[..n];
      StoredIs(init, entry, p);
      assert forall l :: StoredAt(init, l, entry, p) <==> l < n && StoredAt(vs, l, entry, p);
      if !StoredAt(vs, n, entry, p) && Stored(init, entry, p).Some? {
        var l :| StoredAt(init, l, entry, p) && init[l].value == Stored(init, entry, p).value && forall m :: m > l ==> !StoredAt(init, m, entry, p);
        assert StoredAt(vs, l, entry, p);
        forall m | m > l ensures !StoredAt(vs, m, entry, p) {
          assert !StoredAt(init, m, entry, p);
        }
      }
    }
  }

  lemma FitsIs(vs: seq<PresetValue>, entry: string, p: Parameter)
    ensures forall v: uint32 :: Fits(vs, entry, p, v) <==> Stored(vs, entry, p) == Some(v) && v <= p.max
  {
    StoredIs(vs, entry, p);
    hide Stored;
    forall v: uint32 | Fits(vs, entry, p, v) ensures Stored(vs, entry, p) == Some(v) {
      var n :| StoredAt(vs, n, entry, p) && vs[n].value == v && forall l :: l > n ==> !StoredAt(vs, l, entry, p);
      var m :| StoredAt(vs, m, entry, p) && vs[m].value == Stored(vs, entry, p).value && forall l :: l > m ==> !StoredAt(vs, l, entry, p);
      assert n == m;
    }
  }

  /** Value n is the first of its fixture in the preset, and the fixture is of this type and mode. */
  predicate DonorAt(vs: seq<PresetValue>, fixtureType: string, mode: string, n: int)
  {
    0 <= n < |vs| && fixtureType != "" && vs[n].fixtureType == fixtureType && vs[n].mode == mode &&
    forall l :: 0 <= l < n && vs[l].fixtureType != "" ==> vs[l].entry != vs[n].entry
  }

  /** entry has the n-th value's fixture as the first of its type and mode with a value that fits. */
  ghost predicate Lends(vs: seq<PresetValue>, fixtureType: string, mode: string, p: Parameter, n: int, v: uint32)
  {
    DonorAt(vs, fixtureType, mode, n) && Fits(vs, vs[n].entry, p, v) &&
    forall l, u :: l < n && DonorAt(vs, fixtureType, mode, l) ==> !Fits(vs, vs[l].entry, p, u)
  }

  /** The fixtures named among the first n values. */
  ghost predicate SeenUpTo(vs: seq<PresetValue>, n: nat, seen: set<string>)
    requires n <= |vs|
  {
    forall e :: e in seen <==> exists l :: 0 <= l < n && vs[l].fixtureType != "" && vs[l].entry == e
  }

  lemma {:induction false} DonorsLend(vs: seq<PresetValue>, fixtureType: string, mode: string, n: nat, seen: set<string>, p: Parameter)
    requires n <= |vs| && SeenUpTo(vs, n, seen) && fixtureType != ""
    requires forall l, u :: l < n && DonorAt(vs, fixtureType, mode, l) ==> !Fits(vs, vs[l].entry, p, u)
    ensures var lent := FromDonors(vs, Donors(vs, fixtureType, mode, n, seen), p);
            if lent.Some? then exists l :: Lends(vs, fixtureType, mode, p, l, lent.value)
            else forall l, u :: DonorAt(vs, fixtureType, mode, l) ==> !Fits(vs, vs[l].entry, p, u)
    decreases |vs| - n
  {
    hide Fits, Stored;
    if n < |vs| {
      var v := vs[n];
      FitsIs(vs, v.entry, p);
      var next := if v.fixtureType == "" then seen else seen + {v.entry};
      assert SeenUpTo(vs, n + 1, next);
      assert DonorAt(vs, fixtureType, mode, n) <==> v.entry !in seen && v.fixtureType == fixtureType && v.mode == mode;
      if DonorAt(vs, fixtureType, mode, n) && Stored(vs, v.entry, p).Some? && Stored(vs, v.entry, p).value <= p.max {
        assert Lends(vs, fixtureType, mode, p, n, Stored(vs, v.entry, p).value);
      } else {
        DonorsLend(vs, fixtureType, mode, n + 1, next, p);
        var rest := Donors(vs, fixtureType, mode, n + 1, next);
        assert ([v.entry] + rest)[1..] == rest && [] + rest == rest;
        if v.fixtureType == "" || v.entry in seen {
          assert next == seen;
        }
      }
    }
  }

  /** What a recall gives a channel: the last value stored for it, if it fits; else that of the first fixture of
      its type and mode, in preset order, whose last value for the same channel fits; else nothing. */
  lemma RecalledExactly(vs: seq<PresetValue>, entry: string, prof: Profile, p: Parameter, v: uint32)
    ensures Recalled(vs, entry, prof, p) == Some(v) <==>
              Fits(vs, entry, p, v) || ((forall u :: !Fits(vs, entry, p, u)) && exists n :: Lends(vs, prof.fixtureType, prof.mode, p, n, v))
  {
    FitsIs(vs, entry, p);
    hide Fits, Stored;
    if prof.fixtureType != "" {
      DonorsLend(vs, prof.fixtureType, prof.mode, 0, {}, p);
    }
    LendsOnce(vs, prof.fixtureType, prof.mode, p);
  }

  lemma LendsOnce(vs: seq<PresetValue>, fixtureType: string, mode: string, p: Parameter)
    ensures forall n, m, u, v :: Lends(vs, fixtureType, mode, p, n, u) && Lends(vs, fixtureType, mode, p, m, v) ==> u == v
  {
    forall n, m, u: uint32, v: uint32 | Lends(vs, fixtureType, mode, p, n, u) && Lends(vs, fixtureType, mode, p, m, v) ensures u == v {
      FitsIs(vs, vs[n].entry, p);
    }
  }

  /** A channel of the family with key k, in reach of one of ts, is recalled v. */
  ghost predicate PresetGives(profiles: Profiles, ts: seq<Target>, family: Group, vs: seq<PresetValue>, k: Key, v: uint32)
  {
    exists n, i :: 0 <= n < |ts| && Reaches(profiles, ts[n], i, k) && RecallsAt(profiles, family, vs, k, i, v)
  }

  predicate RecallsAt(profiles: Profiles, family: Group, vs: seq<PresetValue>, k: Key, i: int, v: uint32)
  {
    k.entry in profiles && 0 <= i < |profiles[k.entry].model.parameters| && i < |profiles[k.entry].details| &&
    profiles[k.entry].details[i].group == family && Recalled(vs, k.entry, profiles[k.entry], profiles[k.entry].model.parameters[i]) == Some(v)
  }

  ghost predicate RecalledBy(profiles: Profiles, t: Target, family: Group, vs: seq<PresetValue>, n: nat, k: Key, v: uint32)
  {
    exists i :: 0 <= i < n && Reaches(profiles, t, i, k) && RecallsAt(profiles, family, vs, k, i, v)
  }

  lemma {:induction false} RecallParamsGive(profiles: Profiles, t: Target, family: Group, vs: seq<PresetValue>, sofar: Values, n: nat)
    requires t.entry in profiles && n <= |profiles[t.entry].model.parameters| == |profiles[t.entry].details|
    ensures var now := RecallParams(profiles[t.entry], t, family, vs, sofar, n);
            (forall k :: k in now ==> (k in sofar && now[k] == sofar[k]) || RecalledBy(profiles, t, family, vs, n, k, now[k])) &&
            (forall k :: k in sofar ==> k in now) && forall k, v: uint32 :: RecalledBy(profiles, t, family, vs, n, k, v) ==> k in now
  {
    hide RecallsAt, RecalledBy;
    if n > 0 {
      RecallParamsGive(profiles, t, family, vs, sofar, n - 1);
      var before, now := RecallParams(profiles[t.entry], t, family, vs, sofar, n - 1), RecallParams(profiles[t.entry], t, family, vs, sofar, n);
      forall k, v: uint32 ensures RecalledBy(profiles, t, family, vs, n, k, v) <==>
                                    RecalledBy(profiles, t, family, vs, n - 1, k, v) || NewlyRecalled(profiles, t, family, vs, n - 1, k, v) {
        RecalledStep(profiles, t, family, vs, n, k, v);
      }
      RecallLast(profiles, t, family, vs, before, now, n - 1);
    } else {
      RecalledNone(profiles, t, family, vs);
    }
  }

  lemma RecalledNone(profiles: Profiles, t: Target, family: Group, vs: seq<PresetValue>)
    ensures forall k, v: uint32 :: !RecalledBy(profiles, t, family, vs, 0, k, v)
  {}

  predicate NewlyRecalled(profiles: Profiles, t: Target, family: Group, vs: seq<PresetValue>, i: nat, k: Key, v: uint32)
  {
    Reaches(profiles, t, i, k) && RecallsAt(profiles, family, vs, k, i, v)
  }

  lemma RecalledStep(profiles: Profiles, t: Target, family: Group, vs: seq<PresetValue>, n: nat, k: Key, v: uint32)
    requires n > 0
    ensures RecalledBy(profiles, t, family, vs, n, k, v) <==>
              RecalledBy(profiles, t, family, vs, n - 1, k, v) || NewlyRecalled(profiles, t, family, vs, n - 1, k, v)
  {
    hide Reaches, RecallsAt;
  }

  /** What one more channel adds to the values. */
  lemma RecallLast(profiles: Profiles, t: Target, family: Group, vs: seq<PresetValue>, before: Values, now: Values, i: nat)
    requires t.entry in profiles && i < |profiles[t.entry].model.parameters| == |profiles[t.entry].details|
    requires now == (var prof := profiles[t.entry];
                     var p := prof.model.parameters[i];
                     var v := Recalled(vs, t.entry, prof, p);
                     if prof.details[i].group != family || (t.cell != "" && p.cell != t.cell) || v.None? then before
                     else before[Key(t.entry, p.offset) := v.value])
    ensures forall k, v: uint32 :: NewlyRecalled(profiles, t, family, vs, i, k, v) ==> k in now && now[k] == v
    ensures forall k :: k in now ==> (k in before && now[k] == before[k]) || NewlyRecalled(profiles, t, family, vs, i, k, now[k])
    ensures forall k :: k in before ==> k in now
  {}

  /** pending holds, for every channel of the family that a target reaches and is recalled a value, one such value. */
  ghost predicate AllRecalled(profiles: Profiles, ts: seq<Target>, family: Group, vs: seq<PresetValue>, pending: Values)
  {
    (forall k :: k in pending ==> PresetGives(profiles, ts, family, vs, k, pending[k])) &&
    forall k, v: uint32 :: PresetGives(profiles, ts, family, vs, k, v) ==> k in pending
  }

  lemma {:induction false} RecallTargetsGive(profiles: Profiles, ts: seq<Target>, family: Group, vs: seq<PresetValue>)
    requires ProfilesOk(profiles)
    ensures AllRecalled(profiles, ts, family, vs, RecallTargets(profiles, ts, family, vs))
  {
    hide RecallsAt, RecalledBy;
    if ts != [] {
      var last := |ts| - 1;
      var init, t := ts[..last], ts[last];
      RecallTargetsGive(profiles, init, family, vs);
      var sofar, now := RecallTargets(profiles, init, family, vs), RecallTargets(profiles, ts, family, vs);
      if t.entry in profiles {
        RecallParamsGive(profiles, t, family, vs, sofar, |profiles[t.entry].details|);
      }
      RecalledMore(profiles, ts, family, vs, sofar, now);
    }
  }

  lemma RecalledMore(profiles: Profiles, ts: seq<Target>, family: Group, vs: seq<PresetValue>, sofar: Values, now: Values)
    requires ProfilesOk(profiles) && ts != [] && AllRecalled(profiles, ts[..|ts| - 1], family, vs, sofar)
    requires var t := ts[|ts| - 1];
             if t.entry !in profiles then now == sofar
             else
               (forall k :: k in now ==> (k in sofar && now[k] == sofar[k]) || RecalledBy(profiles, t, family, vs, |profiles[t.entry].details|, k, now[k])) &&
               (forall k :: k in sofar ==> k in now) && forall k, v: uint32 :: RecalledBy(profiles, t, family, vs, |profiles[t.entry].details|, k, v) ==> k in now
    ensures AllRecalled(profiles, ts, family, vs, now)
  {
    hide PresetGives, RecalledBy;
    forall k | k in now ensures PresetGives(profiles, ts, family, vs, k, now[k]) {
      GivesSplit(profiles, ts, family, vs, k, now[k]);
    }
    forall k, v: uint32 | PresetGives(profiles, ts, family, vs, k, v) ensures k in now {
      GivesSplit(profiles, ts, family, vs, k, v);
    }
  }

  lemma GivesSplit(profiles: Profiles, ts: seq<Target>, family: Group, vs: seq<PresetValue>, k: Key, v: uint32)
    requires ProfilesOk(profiles) && ts != []
    ensures var t := ts[|ts| - 1];
            PresetGives(profiles, ts, family, vs, k, v) <==>
              PresetGives(profiles, ts[..|ts| - 1], family, vs, k, v) ||
              (t.entry in profiles && RecalledBy(profiles, t, family, vs, |profiles[t.entry].details|, k, v))
  {
    hide RecallsAt;
    var last := |ts| - 1;
    var init, t := ts[..last], ts[last];
    if n, i :| 0 <= n < |ts| && Reaches(profiles, ts[n], i, k) && RecallsAt(profiles, family, vs, k, i, v) {
      if n < last {
        assert Reaches(profiles, init[n], i, k);
      }
    }
    if n, i :| 0 <= n < |init| && Reaches(profiles, init[n], i, k) && RecallsAt(profiles, family, vs, k, i, v) {
      assert Reaches(profiles, ts[n], i, k);
    }
    if t.entry in profiles {
      if i :| 0 <= i < |profiles[t.entry].details| && Reaches(profiles, t, i, k) && RecallsAt(profiles, family, vs, k, i, v) {
        assert Reaches(profiles, ts[last], i, k);
      }
    }
  }

  /** A recall puts a recalled value on every channel of the family in reach of the selection that has one, over
      whatever was held there, and leaves every other value; it is refused where there is no such channel. */
  lemma RecallExactly(s: ProgState, family: Group, vs: seq<PresetValue>)
    requires Valid(s) && s.selection != []
    ensures var (now, err) := RecallStep(s, family, vs, None);
            (err == None <==> exists k, v: uint32 :: PresetGives(s.profiles, s.selection, family, vs, k, v)) &&
            (err == None ==> exists pending :: AllRecalled(s.profiles, s.selection, family, vs, pending) && PutOver(now.values, s.values, pending))
  {
    hide PresetGives, Reaches, PutOver;
    RecallTargetsGive(s.profiles, s.selection, family, vs);
    HeldOver(s, RecallTargets(s.profiles, s.selection, family, vs));
  }
}
