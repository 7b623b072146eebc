/** What a programmer request reaches: which channels of which targets carry an attribute, the values
    staged on them, and the mode masters moved so that a requested function works. */
module ProgrammerModel {
  import opened Prelude
  import opened ChannelMap
  import opened ParameterModel
  import opened Faders
  import opened ChannelValues

  /** A fixture's parameter model with the profile detail of each parameter, and the digest that tells
      one profile from another. shown is everything else the read model shows of the fixture. */
  datatype Profile = Profile(model: Model, details: seq<ChannelDetail>, fingerprint: string, shown: string, fixtureType: string, mode: string)

  type Profiles = map<string, Profile>

  ghost predicate ProfilesOk(profiles: Profiles)
  {
    forall e :: e in profiles ==> |profiles[e].details| == |profiles[e].model.parameters|
  }

  datatype Key = Key(entry: string, offset: uint16)

  type Values = map<Key, uint32>

  datatype ProgError =
    | Stale | NothingSelected | NoSuchFixture | NoSuchCell | BadRequest | NothingApplied | CommandRefused | TooFew
    | CoveredOffset | OutsideFootprint | BadValue

  predicate HasCell(m: Model, cell: string)
  {
    exists i :: 0 <= i < |m.cells| && m.cells[i].id == cell
  }

  predicate IsLive(profiles: Profiles, t: Target)
  {
    t.entry in profiles && (t.cell == "" || HasCell(profiles[t.entry].model, t.cell))
  }

  /** The offsets a value may be held for: a parameter's, or one no parameter covers. */
  ghost predicate IsTouchable(m: Model, offset: uint16)
  {
    offset in m.rawOffsets || exists i :: 0 <= i < |m.parameters| && m.parameters[i].offset == offset
  }

  // ---------------------------------------------------------------- matching

  /** One target and those of its channels with the attribute that no earlier target has. */
  datatype Match = Match(target: Target, params: seq<nat>)

  datatype Matched = Matched(matches: seq<Match>, missing: seq<Target>, done: set<Key>)

  predicate Carries(m: Model, t: Target, attribute: string, p: Parameter)
  {
    p.attribute == attribute && InScope(m, t, p)
  }

  /** The first n channels of m matched for t: those taken, the keys taken so far, and whether any carries the attribute. */
  function MatchParams(m: Model, t: Target, attribute: string, start: set<Key>, n: nat): (seq<nat>, set<Key>, bool)
    requires n <= |m.parameters|
  {
    if n == 0 then ([], start, false)
    else
      var (params, done, hit) := MatchParams(m, t, attribute, start, n - 1);
      var p := m.parameters[n - 1];
      var k := Key(t.entry, p.offset);
      if !Carries(m, t, attribute, p) then (params, done, hit)
      else if k in done then (params, done, true)
      else (params + [n - 1], done + {k}, true)
  }

  function MatchTarget(profiles: Profiles, t: Target, attribute: string, sofar: Matched): Result<Matched, ProgError>
  {
    if t.entry !in profiles then Err(NoSuchFixture)
    else
      var m := profiles[t.entry].model;
      if t.cell != "" && !HasCell(m, t.cell) then Err(NoSuchCell)
      else
        var (params, done, hit) := MatchParams(m, t, attribute, sofar.done, |m.parameters|);
        if !hit then Ok(sofar.(missing := sofar.missing + [t]))
        else if params == [] then Ok(sofar.(done := done))
        else Ok(sofar.(matches := sofar.matches + [Match(t, params)], done := done))
  }

  /** The first n targets matched in order; the first target that is not there refuses the request. */
  function MatchTargets(profiles: Profiles, targets: seq<Target>, attribute: string, n: nat): Result<Matched, ProgError>
    requires n <= |targets|
  {
    if n == 0 then Ok(Matched([], [], {}))
    else
      match MatchTargets(profiles, targets, attribute, n - 1)
      case Err(e) => Err(e)
      case Ok(sofar) => MatchTarget(profiles, targets[n - 1], attribute, sofar)
  }

  method MatchChannels(m: Model, t: Target, attribute: string, start: set<Key>) returns (params: seq<nat>, done: set<Key>, hit: bool)
    ensures (params, done, hit) == MatchParams(m, t, attribute, start, |m.parameters|)
  {
    params, done, hit := [], start, false;
    for i := 0 to |m.parameters|
      invariant (params, done, hit) == MatchParams(m, t, attribute, start, i)
    {
      hide InScope;
      var p := m.parameters[i];
      if p.attribute != attribute || !InScope(m, t, p) {
        continue;
      }
      hit := true;
      var k := Key(t.entry, p.offset);
      if k in done {
        continue;
      }
      done := done + {k};
      params := params + [i];
    }
  }

  method MatchSelection(profiles: Profiles, targets: seq<Target>, attribute: string) returns (r: Result<Matched, ProgError>)
    ensures r == if targets == [] then Err(NothingSelected) else MatchTargets(profiles, targets, attribute, |targets|)
  {
    hide HasCell, MatchParams;
    if |targets| == 0 {
      return Err(NothingSelected);
    }
    var sofar := Matched([], [], {});
    for i := 0 to |targets|
      invariant MatchTargets(profiles, targets, attribute, i) == Ok(sofar)
    {
      var t := targets[i];
      if t.entry !in profiles {
        ErrStays(profiles, targets, attribute, i + 1);
        return Err(NoSuchFixture);
      }
      var m := profiles[t.entry].model;
      if t.cell != "" && !HasCell(m, t.cell) {
        ErrStays(profiles, targets, attribute, i + 1);
        return Err(NoSuchCell);
      }
      var params, done, hit := MatchChannels(m, t, attribute, sofar.done);
      if !hit {
        sofar := sofar.(missing := sofar.missing + [t]);
        continue;
      }
      sofar := sofar.(done := done);
      if |params| > 0 {
        sofar := sofar.(matches := sofar.matches + [Match(t, params)]);
      }
    }
    return Ok(sofar);
  }

  lemma {:induction false} ErrStays(profiles: Profiles, targets: seq<Target>, attribute: string, n: nat)
    requires n <= |targets| && MatchTargets(profiles, targets, attribute, n).Err?
    ensures MatchTargets(profiles, targets, attribute, |targets|) == MatchTargets(profiles, targets, attribute, n)
    decreases |targets| - n
  {
    hide MatchTarget;
    if n < |targets| {
      ErrStays(profiles, targets, attribute, n + 1);
    }
  }

  // ---------------------------------------------------------------- what matching finds

  /** Match a, channel b. */
  ghost predicate MatchedAt(profiles: Profiles, matches: seq<Match>, a: int, b: int, k: Key)
  {
    0 <= a < |matches| && 0 <= b < |matches[a].params| && matches[a].target.entry in profiles &&
    matches[a].params[b] < |profiles[matches[a].target.entry].model.parameters| &&
    k == Key(matches[a].target.entry, profiles[matches[a].target.entry].model.parameters[matches[a].params[b]].offset)
  }

  /** k is the key of one of the channels params. */
  ghost predicate KeyFound(m: Model, t: Target, params: seq<nat>, k: Key)
  {
    exists b :: 0 <= b < |params| && params[b] < |m.parameters| && k == Key(t.entry, m.parameters[params[b]].offset)
  }

  lemma FoundOneMore(m: Model, t: Target, params: seq<nat>, i: nat)
    requires i < |m.parameters|
    ensures forall k :: KeyFound(m, t, params + [i], k) <==> KeyFound(m, t, params, k) || k == Key(t.entry, m.parameters[i].offset)
  {
    var now := params + [i];
    forall k | KeyFound(m, t, params, k) ensures KeyFound(m, t, now, k) {
      var b :| 0 <= b < |params| && params[b] < |m.parameters| && k == Key(t.entry, m.parameters[params[b]].offset);
      assert now[b] == params[b];
    }
    assert now[|params|] == i;
  }

  lemma {:induction false} ParamsFound(m: Model, t: Target, attribute: string, start: set<Key>, n: nat)
    requires n <= |m.parameters|
    ensures var (params, done, hit) := MatchParams(m, t, attribute, start, n);
            start <= done && (params != [] ==> hit) &&
            (hit <==> exists i :: 0 <= i < n && Carries(m, t, attribute, m.parameters[i])) &&
            (forall k :: k in done <==> k in start || KeyFound(m, t, params, k)) &&
            (forall b :: 0 <= b < |params| ==> params[b] < n && Carries(m, t, attribute, m.parameters[params[b]]) && Key(t.entry, m.parameters[params[b]].offset) !in start) &&
            (forall b, c :: 0 <= b < c < |params| ==> m.parameters[params[b]].offset != m.parameters[params[c]].offset) &&
            (forall i :: 0 <= i < n && Carries(m, t, attribute, m.parameters[i]) ==> Key(t.entry, m.parameters[i].offset) in done)
  {
    hide Carries;
    if n > 0 {
      ParamsFound(m, t, attribute, start, n - 1);
      var (before, done0, hit0) := MatchParams(m, t, attribute, start, n - 1);
      var (params, done, hit) := MatchParams(m, t, attribute, start, n);
      var p := m.parameters[n - 1];
      var k := Key(t.entry, p.offset);
      if Carries(m, t, attribute, p) && k !in done0 {
        assert params == before + [n - 1];
        FoundOneMore(m, t, before, n - 1);
      }
    }
  }

  /** Target i has a channel that carries the attribute, with key k. */
  ghost predicate WantedAt(profiles: Profiles, targets: seq<Target>, attribute: string, n: nat, i: int, j: int, k: Key)
    requires n <= |targets|
  {
    0 <= i < n && targets[i].entry in profiles && 0 <= j < |profiles[targets[i].entry].model.parameters| &&
    Carries(profiles[targets[i].entry].model, targets[i], attribute, profiles[targets[i].entry].model.parameters[j]) &&
    k == Key(targets[i].entry, profiles[targets[i].entry].model.parameters[j].offset)
  }

  ghost predicate AllWanted(profiles: Profiles, targets: seq<Target>, attribute: string, n: nat, done: set<Key>)
    requires n <= |targets|
  {
    forall i, j, k :: WantedAt(profiles, targets, attribute, n, i, j, k) ==> k in done
  }

  /** Every match is a target of the request with channels of its own that carry the attribute. */
  ghost predicate MatchOk(profiles: Profiles, targets: seq<Target>, attribute: string, mt: Match)
  {
    mt.target in targets && mt.target.entry in profiles && mt.params != [] &&
    forall b :: 0 <= b < |mt.params| ==>
      mt.params[b] < |profiles[mt.target.entry].model.parameters| &&
      Carries(profiles[mt.target.entry].model, mt.target, attribute, profiles[mt.target.entry].model.parameters[mt.params[b]])
  }

  ghost predicate MatchedOnce(profiles: Profiles, matches: seq<Match>)
  {
    forall a, b, a', b', k :: MatchedAt(profiles, matches, a, b, k) && MatchedAt(profiles, matches, a', b', k) ==> a == a' && b == b'
  }

  ghost predicate MatchedGood(profiles: Profiles, targets: seq<Target>, attribute: string, n: nat, r: Matched)
    requires n <= |targets|
  {
    (forall k :: k in r.done <==> exists a, b :: MatchedAt(profiles, r.matches, a, b, k)) &&
    MatchedOnce(profiles, r.matches) &&
    (forall a :: 0 <= a < |r.matches| ==> MatchOk(profiles, targets, attribute, r.matches[a])) &&
    AllWanted(profiles, targets, attribute, n, r.done) &&
    forall t :: t in r.missing ==> t in targets && t.entry in profiles && CarriesNowhere(profiles[t.entry].model, t, attribute)
  }

  ghost predicate CarriesNowhere(m: Model, t: Target, attribute: string)
  {
    forall j :: 0 <= j < |m.parameters| ==> !Carries(m, t, attribute, m.parameters[j])
  }

  lemma MatchGrows(profiles: Profiles, matches: seq<Match>, mt: Match, done: set<Key>)
    requires mt.target.entry in profiles
    requires forall k :: k in done <==> exists a, b :: MatchedAt(profiles, matches, a, b, k)
    ensures var m := profiles[mt.target.entry].model;
            forall k :: (exists a, b :: MatchedAt(profiles, matches + [mt], a, b, k)) <==> k in done || KeyFound(m, mt.target, mt.params, k)
  {
    var m, all := profiles[mt.target.entry].model, matches + [mt];
    forall k ensures (exists a, b :: MatchedAt(profiles, all, a, b, k)) <==> k in done || KeyFound(m, mt.target, mt.params, k) {
      if a, b :| MatchedAt(profiles, all, a, b, k) {
        if a < |matches| {
          assert MatchedAt(profiles, matches, a, b, k);
        }
      }
      if k in done {
        var a, b :| MatchedAt(profiles, matches, a, b, k);
        assert MatchedAt(profiles, all, a, b, k);
      }
      if KeyFound(m, mt.target, mt.params, k) {
        var b :| 0 <= b < |mt.params| && mt.params[b] < |m.parameters| && k == Key(mt.target.entry, m.parameters[mt.params[b]].offset);
        assert MatchedAt(profiles, all, |matches|, b, k);
      }
    }
  }

  lemma OnceGrows(profiles: Profiles, matches: seq<Match>, mt: Match, done: set<Key>)
    requires mt.target.entry in profiles && MatchedOnce(profiles, matches)
    requires forall k :: k in done <==> exists a, b :: MatchedAt(profiles, matches, a, b, k)
    requires var m := profiles[mt.target.entry].model;
             (forall b :: 0 <= b < |mt.params| ==> mt.params[b] < |m.parameters| && Key(mt.target.entry, m.parameters[mt.params[b]].offset) !in done) &&
             (forall b, c :: 0 <= b < c < |mt.params| ==> m.parameters[mt.params[b]].offset != m.parameters[mt.params[c]].offset)
    ensures MatchedOnce(profiles, matches + [mt])
  {
    var all := matches + [mt];
    forall a, b, a', b', k | MatchedAt(profiles, all, a, b, k) && MatchedAt(profiles, all, a', b', k) ensures a == a' && b == b' {
      if a < |matches| {
        assert MatchedAt(profiles, matches, a, b, k);
      }
      if a' < |matches| {
        assert MatchedAt(profiles, matches, a', b', k);
      }
    }
  }

  lemma MatchOneMore(profiles: Profiles, targets: seq<Target>, attribute: string, n: nat, sofar: Matched)
    requires n < |targets| && MatchedGood(profiles, targets, attribute, n, sofar) && MatchTarget(profiles, targets[n], attribute, sofar).Ok?
    ensures MatchedGood(profiles, targets, attribute, n + 1, MatchTarget(profiles, targets[n], attribute, sofar).value)
  {
    var t := targets[n];
    var m := profiles[t.entry].model;
    ParamsFound(m, t, attribute, sofar.done, |m.parameters|);
    var (params, done, hit) := MatchParams(m, t, attribute, sofar.done, |m.parameters|);
    var mt := Match(t, params);
    MatchGrows(profiles, sofar.matches, mt, sofar.done);
    OnceGrows(profiles, sofar.matches, mt, sofar.done);
    var next := MatchTarget(profiles, t, attribute, sofar).value;
    assert next == if !hit then sofar.(missing := sofar.missing + [t])
                   else if params == [] then sofar.(done := done)
                   else sofar.(matches := sofar.matches + [mt], done := done);
    hide MatchParams, MatchTarget, Carries, MatchedAt, KeyFound, MatchedOnce, HasCell, AllWanted;
    WantedGrows(profiles, targets, attribute, n, sofar.done, done);
    assert t in targets;
  }

  lemma WantedGrows(profiles: Profiles, targets: seq<Target>, attribute: string, n: nat, before: set<Key>, done: set<Key>)
    requires n < |targets| && targets[n].entry in profiles && before <= done
    requires AllWanted(profiles, targets, attribute, n, before)
    requires var m := profiles[targets[n].entry].model;
             forall i :: 0 <= i < |m.parameters| && Carries(m, targets[n], attribute, m.parameters[i]) ==> Key(targets[n].entry, m.parameters[i].offset) in done
    ensures AllWanted(profiles, targets, attribute, n + 1, done)
  {
    hide Carries;
    var n' := n + 1;
    forall i, j, k | WantedAt(profiles, targets, attribute, n', i, j, k) ensures k in done {
      if i < n {
        assert WantedAt(profiles, targets, attribute, n, i, j, k);
      }
    }
  }

  /** Matching finds what it should: every channel in reach of a target that carries the attribute
      belongs to exactly one match, that of the first target to reach it, and nothing else is matched. */
  lemma {:induction false} MatchedExactly(profiles: Profiles, targets: seq<Target>, attribute: string, n: nat)
    requires n <= |targets| && MatchTargets(profiles, targets, attribute, n).Ok?
    ensures MatchedGood(profiles, targets, attribute, n, MatchTargets(profiles, targets, attribute, n).value)
  {
    hide MatchTarget;
    if n == 0 {
      assert forall a, b, k :: !MatchedAt(profiles, [], a, b, k);
    } else {
      MatchedExactly(profiles, targets, attribute, n - 1);
      hide MatchedGood;
      MatchOneMore(profiles, targets, attribute, n - 1, MatchTargets(profiles, targets, attribute, n - 1).value);
    }
  }

  /** Matching is refused exactly when a target is not in the patch. */
  lemma {:induction false} MatchRefused(profiles: Profiles, targets: seq<Target>, attribute: string, n: nat)
    requires n <= |targets|
    ensures MatchTargets(profiles, targets, attribute, n).Ok? <==> forall i :: 0 <= i < n ==> IsLive(profiles, targets[i])
  {
    hide MatchParams, HasCell;
    if n > 0 {
      MatchRefused(profiles, targets, attribute, n - 1);
    }
  }
}
